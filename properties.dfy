/**
 * What one invocation of the enforcer promises, stated over `Enforce` and
 * hence, through LambdaHandler's postcondition, over the handler: which
 * external calls it makes, what it returns, what the broadcast and the
 * notification carry, and how a redelivered event ends.
 */
module EnforcementProperties {
  import opened Wrappers
  import opened Text
  import opened Settings
  import opened CloudTrail
  import opened Aws
  import opened Enforcer

  datatype CallKind = DescribeKind | DeleteKind | PutEventsKind | PublishKind

  function KindOf(c: Call): CallKind {
    match c
    case DescribeTableCall(_) => DescribeKind
    case DeleteTableCall(_) => DeleteKind
    case PutEventsCall(_) => PutEventsKind
    case PublishCall(_) => PublishKind
  }

  /** How many calls of kind `k` a trace holds. */
  function Count(calls: seq<Call>, k: CallKind): nat {
    if calls == [] then 0
    else (if KindOf(calls[0]) == k then 1 else 0) + Count(calls[1..], k)
  }

  lemma {:induction false} CountAppend(a: seq<Call>, b: seq<Call>, k: CallKind)
    ensures Count(a + b, k) == Count(a, k) + Count(b, k)
    decreases |a|
  {
    if a == [] {
      assert a + b == b;
    } else {
      assert (a + b)[1..] == a[1..] + b;
      CountAppend(a[1..], b, k);
    }
  }

  lemma CountSingle(c: Call, k: CallKind)
    ensures Count([c], k) == if KindOf(c) == k then 1 else 0
  {
  }

  /** The table is past the exemption check and answered as found in on-demand mode: the policy is violated. */
  predicate Violating(cloud: Cloud, name: string, config: Config) {
    && name != ""
    && !IsExempt(name, config.exemptTablePrefixes)
    && cloud.DescribeAnswer(name).Found?
    && BillingModeOf(cloud.DescribeAnswer(name).table) == PayPerRequest
  }

  /** Trace of the violation path: describe, delete, broadcast, and notify when a topic is set. */
  lemma ViolationTrace(cloud: Cloud, event: Event, config: Config, clock: Clock)
    requires Violating(cloud, TableNameOf(event), config)
    ensures var name := TableNameOf(event);
            var m := ExtractEventMetadata(event, clock.metadataNow);
            var answer := cloud.DeleteAnswer(name);
            var run := Enforce(cloud, event, config, clock);
            var detail := BuildEventDetail(name, answer.Ok?, m, clock.enforcementNow);
            var message := ViolationMessage(name, m) + DeleteOutcomeSuffix(answer);
            && run.result == Returned(200, message)
            && run.cloud.calls == cloud.calls
                 + [DescribeTableCall(name), DeleteTableCall(name), PutEventsCall([BroadcastEntry(config, detail)])]
                 + (if config.snsTopicArn != "" then [PublishCall(Notification(config, name, message, answer.Ok?, m))] else [])
            && run.cloud.tables == (if answer.Ok? then cloud.tables - {name} else cloud.tables)
  {
  }

  /** The kinds of the calls on the violation path: one describe, one delete, one broadcast, and one notification iff a topic is set. */
  lemma ViolationCounts(cloud: Cloud, event: Event, config: Config, clock: Clock)
    requires Violating(cloud, TableNameOf(event), config)
    ensures var run := Enforce(cloud, event, config, clock);
            && |cloud.calls| <= |run.cloud.calls|
            && var made := run.cloud.calls[|cloud.calls|..];
            && Count(made, DescribeKind) == 1
            && Count(made, DeleteKind) == 1
            && Count(made, PutEventsKind) == 1
            && Count(made, PublishKind) == (if config.snsTopicArn != "" then 1 else 0)
            && made[0] == DescribeTableCall(TableNameOf(event))
            && made[1] == DeleteTableCall(TableNameOf(event))
            && forall i :: 2 <= i < |made| ==> made[i].PutEventsCall? || made[i].PublishCall?
  {
    var name := TableNameOf(event);
    var run := Enforce(cloud, event, config, clock);
    ViolationTrace(cloud, event, config, clock);
    var made := run.cloud.calls[|cloud.calls|..];
    var c0, c1, c2 := DescribeTableCall(name), DeleteTableCall(name), made[2];
    var tail := made[3..];
    assert made == [c0] + [c1] + [c2] + tail;
    assert c2.PutEventsCall?;
    assert |tail| == (if config.snsTopicArn != "" then 1 else 0);
    assert tail != [] ==> tail[0].PublishCall?;
    forall k: CallKind
      ensures Count(made, k) == Count([c0], k) + Count([c1], k) + Count([c2], k) + Count(tail, k)
    {
      CountAppend([c0], [c1], k);
      CountAppend([c0] + [c1], [c2], k);
      CountAppend([c0] + [c1] + [c2], tail, k);
    }
    forall k: CallKind
      ensures Count([c0], k) == (if k == DescribeKind then 1 else 0)
      ensures Count([c1], k) == (if k == DeleteKind then 1 else 0)
      ensures Count([c2], k) == (if k == PutEventsKind then 1 else 0)
      ensures Count(tail, k) == (if k == PublishKind && tail != [] then 1 else 0)
    {
      CountSingle(c0, k);
      CountSingle(c1, k);
      CountSingle(c2, k);
      if tail != [] { CountSingle(tail[0], k); }
    }
  }

  /**
   * Which external calls one invocation makes. Earlier calls are untouched;
   * a describe happens iff the event names a table that is not exempt; a
   * delete and a broadcast happen, once each, iff the policy is violated; a
   * notification iff, in addition, a topic is configured; every describe and
   * delete is for the event's table; only a successful delete changes the
   * tables, by removing that table.
   */
  lemma CallsMade(cloud: Cloud, event: Event, config: Config, clock: Clock)
    ensures var run := Enforce(cloud, event, config, clock);
            var name := TableNameOf(event);
            var violating := Violating(cloud, name, config);
            && |cloud.calls| <= |run.cloud.calls|
            && run.cloud.calls[..|cloud.calls|] == cloud.calls
            && var made := run.cloud.calls[|cloud.calls|..];
            && Count(made, DescribeKind) == (if name != "" && !IsExempt(name, config.exemptTablePrefixes) then 1 else 0)
            && Count(made, DeleteKind) == (if violating then 1 else 0)
            && Count(made, PutEventsKind) == (if violating then 1 else 0)
            && Count(made, PublishKind) == (if violating && config.snsTopicArn != "" then 1 else 0)
            && (forall i :: 0 <= i < |made| && (made[i].DescribeTableCall? || made[i].DeleteTableCall?) ==> made[i].tableName == name)
            && run.cloud.faults == cloud.faults
            && run.cloud.tables == (if violating && cloud.DeleteAnswer(name).Ok? then cloud.tables - {name} else cloud.tables)
  {
    var run := Enforce(cloud, event, config, clock);
    var name := TableNameOf(event);
    if name == "" || IsExempt(name, config.exemptTablePrefixes) {
      assert run.cloud == cloud;
      assert run.cloud.calls[|cloud.calls|..] == [];
    } else if !Violating(cloud, name, config) {
      assert run.cloud == cloud.AfterDescribe(name);
      assert run.cloud.calls[|cloud.calls|..] == [DescribeTableCall(name)];
      forall k: CallKind { CountSingle(DescribeTableCall(name), k); }
    } else {
      ViolationTrace(cloud, event, config, clock);
      ViolationCounts(cloud, event, config, clock);
    }
  }

  /** An event without a table name (missing or empty) ends with "No table name" and no call; no other event does. */
  lemma NoTableName(cloud: Cloud, event: Event, config: Config, clock: Clock)
    ensures var run := Enforce(cloud, event, config, clock);
            && (run.result == Returned(200, NoTableNameBody) <==> TableNameOf(event) == "")
            && (TableNameOf(event) == "" ==> run.cloud == cloud)
  {
  }

  /** An exempt table ends with a 200 whose body names the table and says "exempt", and no call is made. */
  lemma ExemptTableIsSkipped(cloud: Cloud, event: Event, config: Config, clock: Clock)
    requires TableNameOf(event) != ""
    requires IsExempt(TableNameOf(event), config.exemptTablePrefixes)
    ensures var run := Enforce(cloud, event, config, clock);
            && run.cloud == cloud
            && run.result.Returned? && run.result.statusCode == 200
            && Contains(run.result.body, "exempt") && Contains(run.result.body, TableNameOf(event))
  {
    ExemptBodySaysSo(TableNameOf(event));
  }

  lemma ExemptBodySaysSo(name: string)
    ensures Contains(ExemptBody(name), "exempt") && Contains(ExemptBody(name), name)
  {
    ContainsMiddle("Table ", name, " exempt");
    ContainsAtEnd("Table " + name + " ", "exempt");
    assert "Table " + name + " " + "exempt" == ExemptBody(name);
  }

  /** A table the describe call reports as not found ends with "Table not found" after that one call. */
  lemma MissingTableIsSkipped(cloud: Cloud, event: Event, config: Config, clock: Clock)
    requires TableNameOf(event) != ""
    requires !IsExempt(TableNameOf(event), config.exemptTablePrefixes)
    requires cloud.DescribeAnswer(TableNameOf(event)) == NotFound
    ensures var run := Enforce(cloud, event, config, clock);
            && run.result == Returned(200, NotFoundBody)
            && run.cloud.calls == cloud.calls + [DescribeTableCall(TableNameOf(event))]
            && run.cloud.tables == cloud.tables
  {
  }

  /** Only a describe failure other than "not found" makes the handler raise, and it raises that error. */
  lemma OnlyDescribeErrorsAreRaised(cloud: Cloud, event: Event, config: Config, clock: Clock)
    ensures var run := Enforce(cloud, event, config, clock);
            var name := TableNameOf(event);
            && (run.result.Raised? <==>
                  name != "" && !IsExempt(name, config.exemptTablePrefixes) && cloud.faults.describeTable.Some?)
            && (run.result.Raised? ==> run.result.error == cloud.faults.describeTable.value)
            && (run.result.Returned? ==> run.result.statusCode == 200)
  {
  }

  /** The billing mode is the reported one when present and PROVISIONED when the summary or the mode is missing. */
  lemma BillingModeDefault(table: TableDescription)
    ensures table.billingModeSummary.None? ==> BillingModeOf(table) == Provisioned
    ensures table.billingModeSummary.Some? && table.billingModeSummary.value.billingMode.None? ==> BillingModeOf(table) == Provisioned
    ensures table.billingModeSummary.Some? && table.billingModeSummary.value.billingMode.Some?
            ==> BillingModeOf(table) == table.billingModeSummary.value.billingMode.value
  {
  }

  /** A table found in any mode but PAY_PER_REQUEST (including an absent mode) is left alone: "already provisioned", no delete. */
  lemma CompliantTableIsKept(cloud: Cloud, event: Event, config: Config, clock: Clock)
    requires TableNameOf(event) != ""
    requires !IsExempt(TableNameOf(event), config.exemptTablePrefixes)
    requires cloud.DescribeAnswer(TableNameOf(event)).Found?
    requires BillingModeOf(cloud.DescribeAnswer(TableNameOf(event)).table) != PayPerRequest
    ensures var run := Enforce(cloud, event, config, clock);
            && run.result.Returned? && run.result.statusCode == 200
            && Contains(run.result.body, "already provisioned")
            && run.cloud.calls == cloud.calls + [DescribeTableCall(TableNameOf(event))]
            && run.cloud.tables == cloud.tables
  {
    ProvisionedBodySaysSo(TableNameOf(event));
  }

  lemma ProvisionedBodySaysSo(name: string)
    ensures Contains(ProvisionedBody(name), "already provisioned")
  {
    ContainsAtEnd("Table " + name + " is ", "already provisioned");
    assert "Table " + name + " is " + "already provisioned" == ProvisionedBody(name);
  }

  /**
   * On the violation path the result is a 200 whose message names the table,
   * the account, the region, the caller's ARN and the source IP, and ends
   * with the outcome of the one delete attempt.
   */
  lemma ViolationMessageContents(cloud: Cloud, event: Event, config: Config, clock: Clock)
    requires Violating(cloud, TableNameOf(event), config)
    ensures var name := TableNameOf(event);
            var m := ExtractEventMetadata(event, clock.metadataNow);
            var run := Enforce(cloud, event, config, clock);
            && run.result.Returned? && run.result.statusCode == 200
            && Contains(run.result.body, name)
            && Contains(run.result.body, m.accountId)
            && Contains(run.result.body, m.region)
            && Contains(run.result.body, m.userArn)
            && Contains(run.result.body, m.sourceIp)
            && (cloud.DeleteAnswer(name).Ok? ==>
                  EndsWith(run.result.body, DeletedSuffix) && Contains(run.result.body, Deleted) && name !in run.cloud.tables)
            && (cloud.DeleteAnswer(name).Fail? ==>
                  EndsWith(run.result.body, FailedSuffix + cloud.DeleteAnswer(name).error) && run.cloud.tables == cloud.tables)
  {
    var name := TableNameOf(event);
    var m := ExtractEventMetadata(event, clock.metadataNow);
    ViolationTrace(cloud, event, config, clock);
    MessageNamesTheEvent(name, m, DeleteOutcomeSuffix(cloud.DeleteAnswer(name)));
    EndsWithAppended(ViolationMessage(name, m), DeleteOutcomeSuffix(cloud.DeleteAnswer(name)));
    if cloud.DeleteAnswer(name).Ok? {
      DeletedSuffixSaysDeleted(ViolationMessage(name, m));
    }
  }

  lemma DeletedSuffixSaysDeleted(message: string)
    ensures Contains(message + DeletedSuffix, Deleted)
  {
    ContainsMiddle("\n\nACTION: TABLE ", Deleted, ".");
    assert "\n\nACTION: TABLE " + Deleted + "." == DeletedSuffix;
    ContainsPrepended(message, DeletedSuffix, Deleted);
  }

  /** The violation message, whatever is appended to it, names the table, account, region, caller and source IP. */
  lemma MessageNamesTheEvent(name: string, m: Metadata, suffix: string)
    ensures var body := ViolationMessage(name, m) + suffix;
            && Contains(body, name) && Contains(body, m.accountId) && Contains(body, m.region)
            && Contains(body, m.userArn) && Contains(body, m.sourceIp)
  {
    var s0 := "DynamoDB table '" + name;
    var s1 := s0 + "' detected with On-Demand billing mode.\nAccount: " + m.accountId;
    var s2 := s1 + "\nRegion: " + m.region;
    var s3 := s2 + "\nCreated by: " + m.userArn;
    var s4 := s3 + "\nSource IP: " + m.sourceIp;
    var body := s4 + suffix;
    assert s4 == ViolationMessage(name, m);
    assert Contains(body, name) by {
      ContainsAtEnd("DynamoDB table '", name);
      ContainsInPrefix(body, s0, name);
    }
    assert Contains(body, m.accountId) by {
      ContainsAtEnd(s0 + "' detected with On-Demand billing mode.\nAccount: ", m.accountId);
      ContainsInPrefix(body, s1, m.accountId);
    }
    assert Contains(body, m.region) by {
      ContainsAtEnd(s1 + "\nRegion: ", m.region);
      ContainsInPrefix(body, s2, m.region);
    }
    assert Contains(body, m.userArn) by {
      ContainsAtEnd(s2 + "\nCreated by: ", m.userArn);
      ContainsInPrefix(body, s3, m.userArn);
    }
    assert Contains(body, m.sourceIp) by {
      ContainsAtEnd(s3 + "\nSource IP: ", m.sourceIp);
      ContainsInPrefix(body, s4, m.sourceIp);
    }
  }

  /**
   * The broadcast detail and the notification attributes agree: the same
   * action, DELETED exactly when the delete succeeded and DELETE_FAILED
   * otherwise, and the same account, region and table; the notification's
   * attributes are exactly these four, all typed String. The broadcast
   * entry carries the detail, under the configured source and bus and the
   * fixed detail type.
   */
  lemma BroadcastAndNotificationAgree(config: Config, name: string, message: string, deleteSuccess: bool, m: Metadata, now: string)
    ensures var d := BuildEventDetail(name, deleteSuccess, m, now);
            var n := Notification(config, name, message, deleteSuccess, m);
            var a := n.messageAttributes;
            var e := BroadcastEntry(config, d);
            && e.source == config.eventBridgeSource && e.eventBusName == config.eventBusName
            && e.detailType == "DynamoDB On-Demand Table Deleted" && e.detail == d
            && (d.action == Deleted <==> deleteSuccess)
            && (d.action == DeleteFailed <==> !deleteSuccess)
            && a.Keys == {"accountId", "region", "tableName", "action"}
            && (forall k :: k in a ==> a[k].dataType == "String")
            && a["action"].stringValue == d.action
            && a["accountId"].stringValue == d.accountId == m.accountId
            && a["region"].stringValue == d.region == m.region
            && a["tableName"].stringValue == d.tableName == name
            && d.triggeredBy == TriggeredBy(m.userArn, m.userType, m.userPrincipal, m.sourceIp)
            && d.reason == Reason && d.eventTime == m.eventTime && d.enforcementTimestamp == now
            && n.topicArn == config.snsTopicArn && n.message == message
            && Contains(n.subject, name)
  {
    assert Deleted != DeleteFailed;
    ContainsMiddle("[COST ALERT] DynamoDB On-Demand Table Deleted: ", name, "");
    assert "[COST ALERT] DynamoDB On-Demand Table Deleted: " + name + "" == Notification(config, name, message, deleteSuccess, m).subject;
  }

  /**
   * Reporting is best effort: whether put_events or publish fail changes
   * neither the result, nor the calls made, nor the tables.
   */
  lemma ReportingIsBestEffort(cloud: Cloud, putEvents: Option<string>, publish: Option<string>, event: Event, config: Config, clock: Clock)
    ensures var other := cloud.(faults := cloud.faults.(putEvents := putEvents, publish := publish));
            var run := Enforce(cloud, event, config, clock);
            var run' := Enforce(other, event, config, clock);
            run'.result == run.result && run'.cloud.calls == run.cloud.calls && run'.cloud.tables == run.cloud.tables
  {
    var other := cloud.(faults := cloud.faults.(putEvents := putEvents, publish := publish));
    var name := TableNameOf(event);
    assert other.DescribeAnswer(name) == cloud.DescribeAnswer(name);
    assert other.DeleteAnswer(name) == cloud.DeleteAnswer(name);
  }

  /**
   * Redelivery converges: once an invocation has deleted the table, the same
   * event delivered again finds the table gone and ends with
   * "Table not found" after one describe call, with no second delete.
   */
  lemma RedeliveryAfterDeletion(cloud: Cloud, event: Event, config: Config, clock: Clock, later: Clock)
    requires Violating(cloud, TableNameOf(event), config)
    requires cloud.DeleteAnswer(TableNameOf(event)).Ok?
    ensures var first := Enforce(cloud, event, config, clock);
            var second := Enforce(first.cloud, event, config, later);
            && second.result == Returned(200, NotFoundBody)
            && second.cloud.calls == first.cloud.calls + [DescribeTableCall(TableNameOf(event))]
            && second.cloud.tables == first.cloud.tables
  {
  }

  /** Whether a table is exempt does not depend on the order of the exempt list. */
  lemma ExemptionIgnoresOrder(name: string, prefixes: seq<string>, reordered: seq<string>)
    requires multiset(prefixes) == multiset(reordered)
    ensures IsExempt(name, prefixes) == IsExempt(name, reordered)
  {
    forall entry
      ensures entry in prefixes <==> entry in reordered
    {
      assert entry in prefixes <==> entry in multiset(prefixes);
      assert entry in reordered <==> entry in multiset(reordered);
    }
  }

  /** An unset or empty EXEMPT_TABLE_PREFIXES parses to `['']`, which exempts no table. */
  lemma EmptyExemptListExemptsNothing(env: map<string, string>, name: string)
    requires EnvGet(env, "EXEMPT_TABLE_PREFIXES", "") == ""
    ensures GetConfig(env).exemptTablePrefixes == [""]
    ensures !IsExempt(name, GetConfig(env).exemptTablePrefixes)
  {
  }

  /**
   * The emptiness test is made before trimming: an entry of whitespace only
   * passes it, trims to the empty prefix, and so exempts every table.
   */
  lemma BlankEntryExemptsEverything(name: string, prefixes: seq<string>, k: nat)
    requires k < |prefixes| && prefixes[k] != "" && AllSpace(prefixes[k])
    ensures IsExempt(name, prefixes)
  {
    StripEmptyIffAllSpace(prefixes[k]);
    assert ExemptBy(name, prefixes[k]);
  }

  /** An entry exempts exactly the names that start with its trimmed form, unless it is empty as written. */
  lemma ExemptByEntry(name: string, prefixes: seq<string>)
    ensures IsExempt(name, prefixes) <==>
            exists k :: 0 <= k < |prefixes| && prefixes[k] != "" && StartsWith(name, Strip(prefixes[k]))
  {
    if IsExempt(name, prefixes) {
      var entry :| entry in prefixes && ExemptBy(name, entry);
      var k :| 0 <= k < |prefixes| && prefixes[k] == entry;
    } else {
      forall k | 0 <= k < |prefixes|
        ensures !(prefixes[k] != "" && StartsWith(name, Strip(prefixes[k])))
      {
        assert prefixes[k] in prefixes;
      }
    }
  }

  /** EXEMPT_TABLE_PREFIXES set to `terraform-,infrastructure-` parses to its two entries. */
  lemma TerraformPrefixesParse()
    ensures Split("terraform-,infrastructure-", ',') == ["terraform-", "infrastructure-"]
  {
    var prefixes := ["terraform-", "infrastructure-"];
    assert Join(prefixes, ',') == "terraform-,infrastructure-";
    SplitJoin(prefixes, ',');
  }

  /** With those two entries, a `terraform-` table is exempt. */
  lemma TerraformTableIsExempt()
    ensures IsExempt("terraform-state-lock", ["terraform-", "infrastructure-"])
  {
    var prefixes := ["terraform-", "infrastructure-"];
    assert StartsWith("terraform-state-lock", prefixes[0]) by {
      assert "terraform-state-lock"[..10] == prefixes[0];
    }
    PlainEntry("terraform-state-lock", prefixes[0]);
    assert prefixes[0] in prefixes;
  }

  /** An entry with no surrounding whitespace exempts exactly the names it prefixes. */
  lemma PlainEntry(name: string, entry: string)
    requires entry != [] && !IsSpace(entry[0]) && !IsSpace(entry[|entry| - 1])
    ensures ExemptBy(name, entry) <==> StartsWith(name, entry)
  {
  }

  /** With those two entries, a table whose name starts with neither is not exempt. */
  lemma OtherTableIsNotExempt()
    ensures !IsExempt("test-table", ["terraform-", "infrastructure-"])
  {
    var prefixes := ["terraform-", "infrastructure-"];
    assert !StartsWith("test-table", prefixes[0]) by {
      assert "test-table"[2] == 's' && prefixes[0][2] == 'r';
    }
    PlainEntry("test-table", prefixes[0]);
    PlainEntry("test-table", prefixes[1]);
    ExemptByEntry("test-table", prefixes);
  }
}
