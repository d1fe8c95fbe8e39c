/**
 * The DynamoDB billing-mode enforcer: one invocation of the handler on one
 * event. `Enforce` is the pipeline as a function of the account's state
 * before the call; `LambdaHandler` is the handler itself, run against an
 * account object, and is proved to behave as `Enforce` says.
 */
module Enforcer {
  import opened Wrappers
  import opened Text
  import opened Settings
  import opened CloudTrail
  import opened Aws

  const PayPerRequest := "PAY_PER_REQUEST"
  const Provisioned := "PROVISIONED"
  const Deleted := "DELETED"
  const DeleteFailed := "DELETE_FAILED"
  const Reason := "On-Demand billing mode not allowed"
  const DetailType := "DynamoDB On-Demand Table Deleted"
  const NoTableNameBody := "No table name"
  const NotFoundBody := "Table not found"
  const DeletedSuffix := "\n\nACTION: TABLE DELETED."
  const FailedSuffix := "\n\nACTION FAILED: "

  /** The two readings of the UTC wall clock the handler takes, as ISO-8601 strings. */
  datatype Clock = Clock(metadataNow: string, enforcementNow: string)

  /** What the handler does: return `{statusCode, body}`, or raise. */
  datatype HandlerResult = Returned(statusCode: int, body: string) | Raised(error: string)

  /** One invocation: its result and the account's state afterwards. */
  datatype Run = Run(result: HandlerResult, cloud: Cloud)

  /** One entry of the exempt list exempts `name`: it is non-empty as written and, trimmed, prefixes `name`. */
  predicate ExemptBy(name: string, entry: string) {
    entry != "" && StartsWith(name, Strip(entry))
  }

  predicate IsExempt(name: string, prefixes: seq<string>) {
    exists entry :: entry in prefixes && ExemptBy(name, entry)
  }

  /** The table's billing mode, `PROVISIONED` when the summary or the mode is absent. */
  function BillingModeOf(table: TableDescription): string {
    table.billingModeSummary.GetOr(BillingModeSummary(None)).billingMode.GetOr(Provisioned)
  }

  function ExemptBody(name: string): string {
    "Table " + name + " exempt"
  }

  function ProvisionedBody(name: string): string {
    "Table " + name + " is already provisioned"
  }

  /** The opening of the violation message, before the outcome of the delete is appended. */
  function ViolationMessage(name: string, m: Metadata): string {
    "DynamoDB table '" + name + "' detected with On-Demand billing mode.\nAccount: " + m.accountId
    + "\nRegion: " + m.region + "\nCreated by: " + m.userArn + "\nSource IP: " + m.sourceIp
  }

  /** What the outcome of the delete appends to the message. */
  function DeleteOutcomeSuffix(answer: CallResult): string {
    match answer
    case Ok => DeletedSuffix
    case Fail(e) => FailedSuffix + e
  }

  function ActionName(deleteSuccess: bool): string {
    if deleteSuccess then Deleted else DeleteFailed
  }

  function BuildEventDetail(name: string, deleteSuccess: bool, m: Metadata, enforcementNow: string): EnforcementDetail {
    EnforcementDetail(
      tableName := name,
      action := ActionName(deleteSuccess),
      reason := Reason,
      accountId := m.accountId,
      region := m.region,
      eventTime := m.eventTime,
      triggeredBy := TriggeredBy(m.userArn, m.userType, m.userPrincipal, m.sourceIp),
      enforcementTimestamp := enforcementNow)
  }

  function BroadcastEntry(config: Config, detail: EnforcementDetail): PutEventsEntry {
    PutEventsEntry(config.eventBridgeSource, DetailType, detail, config.eventBusName)
  }

  function StringAttribute(value: string): MessageAttribute {
    MessageAttribute("String", value)
  }

  function NotificationAttributes(name: string, deleteSuccess: bool, m: Metadata): map<string, MessageAttribute> {
    map[
      "accountId" := StringAttribute(m.accountId),
      "region" := StringAttribute(m.region),
      "tableName" := StringAttribute(name),
      "action" := StringAttribute(ActionName(deleteSuccess))]
  }

  function Notification(config: Config, name: string, message: string, deleteSuccess: bool, m: Metadata): PublishRequest {
    PublishRequest(
      config.snsTopicArn,
      "[COST ALERT] DynamoDB On-Demand Table Deleted: " + name,
      message,
      NotificationAttributes(name, deleteSuccess, m))
  }

  /**
   * The remediation of a table found in on-demand mode, from the state after
   * the describe call: one delete attempt, one broadcast attempt and, when a
   * topic is configured, one notification attempt, whose own failures are
   * ignored.
   */
  function Remediate(cloud: Cloud, name: string, metadata: Metadata, config: Config, clock: Clock): Run {
    var answer := cloud.DeleteAnswer(name);
    var deleteSuccess := answer.Ok?;
    var message := ViolationMessage(name, metadata) + DeleteOutcomeSuffix(answer);
    var detail := BuildEventDetail(name, deleteSuccess, metadata, clock.enforcementNow);
    var broadcast := cloud.AfterDelete(name).AfterPutEvents([BroadcastEntry(config, detail)]);
    var notified :=
      if config.snsTopicArn != "" then broadcast.AfterPublish(Notification(config, name, message, deleteSuccess, metadata))
      else broadcast;
    Run(Returned(200, message), notified)
  }

  /** Describe the table and act on the answer. */
  function Resolve(cloud: Cloud, name: string, metadata: Metadata, config: Config, clock: Clock): Run {
    var described := cloud.AfterDescribe(name);
    match cloud.DescribeAnswer(name)
    case NotFound => Run(Returned(200, NotFoundBody), described)
    case DescribeFailed(e) => Run(Raised(e), described)
    case Found(table) =>
      if BillingModeOf(table) != PayPerRequest then Run(Returned(200, ProvisionedBody(name)), described)
      else Remediate(described, name, metadata, config, clock)
  }

  /**
   * The whole pipeline for one event: no table name and exempt tables end
   * early with a 200 and no call; otherwise the table is described and acted
   * on (Resolve).
   */
  function Enforce(cloud: Cloud, event: Event, config: Config, clock: Clock): Run {
    var name := TableNameOf(event);
    if name == "" then
      Run(Returned(200, NoTableNameBody), cloud)
    else if IsExempt(name, config.exemptTablePrefixes) then
      Run(Returned(200, ExemptBody(name)), cloud)
    else
      Resolve(cloud, name, ExtractEventMetadata(event, clock.metadataNow), config, clock)
  }

  /**
   * The exemption check: scan the exempt list in order and stop at the first
   * entry that is non-empty as written and whose trimmed form prefixes the
   * table name. The answer is IsExempt, whatever the order of the list.
   */
  method CheckExempt(tableName: string, prefixes: seq<string>) returns (exempt: bool)
    ensures exempt == IsExempt(tableName, prefixes)
  {
    for i := 0 to |prefixes|
      invariant forall j :: 0 <= j < i ==> !ExemptBy(tableName, prefixes[j])
    {
      if ExemptBy(tableName, prefixes[i]) {
        return true;
      }
    }
    return false;
  }

  /**
   * The handler. The configuration is read from `env`, the clock readings
   * are given, and the AWS services are those of `aws`; the result and the
   * account's new state are those `Enforce` gives.
   */
  method LambdaHandler(event: Event, env: map<string, string>, clock: Clock, aws: Account) returns (result: HandlerResult)
    modifies aws
    ensures result == Enforce(old(aws.State()), event, GetConfig(env), clock).result
    ensures aws.State() == Enforce(old(aws.State()), event, GetConfig(env), clock).cloud
  {
    var config := GetConfig(env);
    var metadata := ExtractEventMetadata(event, clock.metadataNow);
    var tableName := TableNameOf(event);
    if tableName == "" {
      return Returned(200, NoTableNameBody);
    }

    var exempt := CheckExempt(tableName, config.exemptTablePrefixes);
    if exempt {
      return Returned(200, ExemptBody(tableName));
    }

    var described := aws.DescribeTable(tableName);
    var billingMode;
    match described {
      case NotFound =>
        return Returned(200, NotFoundBody);
      case DescribeFailed(e) =>
        return Raised(e);
      case Found(table) =>
        billingMode := BillingModeOf(table);
    }

    if billingMode == PayPerRequest {
      ghost var before := aws.State();
      var message := ViolationMessage(tableName, metadata);
      var deleteSuccess := false;
      var deleted := aws.DeleteTable(tableName);
      match deleted {
        case Ok =>
          message := message + DeletedSuffix;
          deleteSuccess := true;
        case Fail(e) =>
          message := message + (FailedSuffix + e);
      }
      assert message == ViolationMessage(tableName, metadata) + DeleteOutcomeSuffix(deleted);
      assert deleteSuccess == deleted.Ok?;

      var eventDetail := BuildEventDetail(tableName, deleteSuccess, metadata, clock.enforcementNow);
      var _ := aws.PutEvents([BroadcastEntry(config, eventDetail)]);
      assert aws.State() == before.AfterDelete(tableName).AfterPutEvents([BroadcastEntry(config, eventDetail)]);

      if config.snsTopicArn != "" {
        var _ := aws.Publish(Notification(config, tableName, message, deleteSuccess, metadata));
      }
      return Returned(200, message);
    }

    return Returned(200, ProvisionedBody(tableName));
  }
}
