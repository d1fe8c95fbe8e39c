/**
 * The three AWS services the enforcer calls (DynamoDB describe/delete,
 * EventBridge put_events, SNS publish), modelled as one account whose
 * answers are determined by its tables and by an injected per-service fault,
 * and which records every call it receives, in order.
 */
module Aws {
  import opened Wrappers

  datatype BillingModeSummary = BillingModeSummary(billingMode: Option<string>)

  /** The `Table` part of a describe_table response, reduced to what the enforcer reads. */
  datatype TableDescription = TableDescription(billingModeSummary: Option<BillingModeSummary>)

  datatype DescribeResult =
    | Found(table: TableDescription)
    | NotFound                       // ResourceNotFoundException
    | DescribeFailed(error: string)  // any other exception, as str(e)

  /** Whether a call returned or raised (with str(e)). */
  datatype CallResult = Ok | Fail(error: string)

  datatype TriggeredBy = TriggeredBy(userArn: string, userType: string, principalId: string, sourceIp: string)

  /** The `Detail` body of the broadcast event (sent JSON-encoded). */
  datatype EnforcementDetail = EnforcementDetail(
    tableName: string,
    action: string,
    reason: string,
    accountId: string,
    region: string,
    eventTime: string,
    triggeredBy: TriggeredBy,
    enforcementTimestamp: string)

  datatype PutEventsEntry = PutEventsEntry(
    source: string,
    detailType: string,
    detail: EnforcementDetail,
    eventBusName: string)

  datatype MessageAttribute = MessageAttribute(dataType: string, stringValue: string)

  datatype PublishRequest = PublishRequest(
    topicArn: string,
    subject: string,
    message: string,
    messageAttributes: map<string, MessageAttribute>)

  datatype Call =
    | DescribeTableCall(tableName: string)
    | DeleteTableCall(tableName: string)
    | PutEventsCall(entries: seq<PutEventsEntry>)
    | PublishCall(request: PublishRequest)

  /** An error a service answers every call with, if any (permissions, throttling, network). */
  datatype Faults = Faults(
    describeTable: Option<string>,
    deleteTable: Option<string>,
    putEvents: Option<string>,
    publish: Option<string>)

  const ResourceNotFoundMessage := "Requested resource not found"

  /** The observable state of the account: its tables, its faults and the calls made so far. */
  datatype Cloud = Cloud(tables: map<string, TableDescription>, faults: Faults, calls: seq<Call>) {

    function DescribeAnswer(name: string): DescribeResult {
      if faults.describeTable.Some? then DescribeFailed(faults.describeTable.value)
      else if name in tables then Found(tables[name])
      else NotFound
    }

    function DeleteAnswer(name: string): CallResult {
      if faults.deleteTable.Some? then Fail(faults.deleteTable.value)
      else if name in tables then Ok
      else Fail(ResourceNotFoundMessage)
    }

    function PutEventsAnswer(): CallResult {
      if faults.putEvents.Some? then Fail(faults.putEvents.value) else Ok
    }

    function PublishAnswer(): CallResult {
      if faults.publish.Some? then Fail(faults.publish.value) else Ok
    }

    function AfterDescribe(name: string): Cloud {
      this.(calls := calls + [DescribeTableCall(name)])
    }

    /** A delete that succeeds removes the table; every attempt is recorded. */
    function AfterDelete(name: string): (c: Cloud)
      ensures c.faults == faults && c.calls == calls + [DeleteTableCall(name)]
      ensures DeleteAnswer(name).Ok? ==> c.tables == tables - {name} && name !in c.tables
      ensures DeleteAnswer(name).Fail? ==> c.tables == tables
    {
      this.(tables := if DeleteAnswer(name).Ok? then tables - {name} else tables,
            calls := calls + [DeleteTableCall(name)])
    }

    function AfterPutEvents(entries: seq<PutEventsEntry>): Cloud {
      this.(calls := calls + [PutEventsCall(entries)])
    }

    function AfterPublish(request: PublishRequest): Cloud {
      this.(calls := calls + [PublishCall(request)])
    }
  }

  /** The account as the handler sees it: an object whose calls change its state. */
  class Account {
    var tables: map<string, TableDescription>
    const faults: Faults
    var calls: seq<Call>

    function State(): Cloud
      reads this
    {
      Cloud(tables, faults, calls)
    }

    constructor (tables: map<string, TableDescription>, faults: Faults)
      ensures State() == Cloud(tables, faults, [])
    {
      this.tables := tables;
      this.faults := faults;
      this.calls := [];
    }

    method DescribeTable(name: string) returns (r: DescribeResult)
      modifies this
      ensures r == old(State()).DescribeAnswer(name)
      ensures State() == old(State()).AfterDescribe(name)
    {
      r := State().DescribeAnswer(name);
      calls := calls + [DescribeTableCall(name)];
    }

    method DeleteTable(name: string) returns (r: CallResult)
      modifies this
      ensures r == old(State()).DeleteAnswer(name)
      ensures State() == old(State()).AfterDelete(name)
    {
      r := State().DeleteAnswer(name);
      if r.Ok? {
        tables := tables - {name};
      }
      calls := calls + [DeleteTableCall(name)];
    }

    method PutEvents(entries: seq<PutEventsEntry>) returns (r: CallResult)
      modifies this
      ensures r == old(State()).PutEventsAnswer()
      ensures State() == old(State()).AfterPutEvents(entries)
    {
      r := State().PutEventsAnswer();
      calls := calls + [PutEventsCall(entries)];
    }

    method Publish(request: PublishRequest) returns (r: CallResult)
      modifies this
      ensures r == old(State()).PublishAnswer()
      ensures State() == old(State()).AfterPublish(request)
    {
      r := State().PublishAnswer();
      calls := calls + [PublishCall(request)];
    }
  }
}
