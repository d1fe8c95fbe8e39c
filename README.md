# DynamoDB billing-mode enforcer, modelled in Dafny

The enforcer is a Lambda handler. It receives a CloudTrail `CreateTable` or
`UpdateTable` event through EventBridge. It deletes the named DynamoDB table
when that table is in on-demand (`PAY_PER_REQUEST`) billing mode, unless the
table name starts with one of the configured exempt prefixes. After a deletion
attempt it broadcasts an EventBridge event and, when a topic is configured,
publishes an SNS notification. Those two reports are best effort.

The project models the three functions of
`modules/dynamodb-billing-enforcer/lambda/index.py`:

- `get_config` reads four environment variables. It is modelled as
  `Settings.GetConfig` over a map standing for `os.environ`.
- `extract_event_metadata` normalises the event into a flat record with
  fallbacks. It is modelled as `CloudTrail.ExtractEventMetadata`. Each event
  field is an `Option`, so a key that is absent is `None`.
- `lambda_handler` is modelled as the method `Enforcer.LambdaHandler`. It
  works on an `Aws.Account` object, whose method calls change its tables and
  append to its trace of calls. Its contract equates the returned value and
  the account's new state with the pure specification `Enforcer.Enforce`.
  The properties in `EnforcementProperties` are proved about `Enforce`.

Files:

- `wrappers.dfy`: `Option`.
- `text.dfy`: the Python string operations used by the source. These are
  `str.strip()` with Python's whitespace set, `str.split(',')`,
  `str.startswith`, and substring containment.
- `config.dfy`: the configuration.
- `event_metadata.dfy`: the CloudTrail event and its metadata.
- `aws.dfy`: the DynamoDB, EventBridge and SNS calls, as an account object.
  Its observable state is a `Cloud` value.
- `enforcer.dfy`: the handler and its specification.
- `properties.dfy`: what one invocation does, and what two related
  invocations do.

The AWS services are deterministic in this model. `Cloud.faults` holds at most
one injected error per service. `describe_table` fails with the injected error
if there is one. Otherwise it returns the table or reports it not found.
`delete_table` fails with the injected error if there is one, fails with
"Requested resource not found" when the account holds no such table, and
otherwise succeeds and removes the table. The handler deletes only after a
describe of the same state found the table, so it never meets the second
case. `put_events` and `publish` fail only with their injected error.

Exempt entries are checked for emptiness before they are trimmed (line 115),
so a whitespace-only entry such as `" "` trims to `""`, which prefixes every
name: it exempts every table
(`EnforcementProperties.BlankEntryExemptsEverything`). The account id falls
back to the detail's `recipientAccountId`, then the top-level `account`, then
`"unknown"` (line 69).

## Model

| member | source | states |
|---|---|---|
| Text.Strip | modules/dynamodb-billing-enforcer/lambda/index.py:115 | The stripped string is a contiguous slice of the input. Everything before and after the slice is whitespace. The slice neither starts nor ends with whitespace. |
| Text.StripUnchanged | modules/dynamodb-billing-enforcer/lambda/index.py:115 | A non-empty string with no whitespace at either end strips to itself. |
| Text.StripEmptyIffAllSpace | modules/dynamodb-billing-enforcer/lambda/index.py:115 | A string strips to `""` exactly when it is all whitespace. |
| Text.Split | modules/dynamodb-billing-enforcer/lambda/index.py:38 | `split(',')` returns at least one piece. No piece contains the separator. Joining the pieces with the separator gives back the input. |
| Text.SplitJoin | modules/dynamodb-billing-enforcer/lambda/index.py:38 | Splitting the join of at least one separator-free piece gives back exactly those pieces. This is the inverse of `Text.Split`. |
| Settings.EnvGet | modules/dynamodb-billing-enforcer/lambda/index.py:37-40 | `os.environ.get(key, default)` is the value when the key is set and the default otherwise. |
| Settings.GetConfig | modules/dynamodb-billing-enforcer/lambda/index.py:34-41 | The topic, bus and source are the variables, defaulting to `""`, `"default"` and `"sandbox.dynamodb-billing-enforcer"`. The exempt list is never empty and has no comma in any entry. Joined by commas, it equals `EXEMPT_TABLE_PREFIXES` (default `""`). |
| Settings.EmptyEnvironmentDefaults | modules/dynamodb-billing-enforcer/lambda/index.py:36-41 | With no variable set: no topic, exempt list `[""]`, and the default bus and source. |
| CloudTrail.FirstPresent | modules/dynamodb-billing-enforcer/lambda/index.py:69-77 | This is the nested-`get` fallback. The result is the first present value of the chain, or the fallback when none is present. |
| CloudTrail.ExtractEventMetadata | modules/dynamodb-billing-enforcer/lambda/index.py:55-78 | Account is recipientAccountId, then account, then "unknown". Region is awsRegion, then region, then "unknown". Event time is eventTime, then the current time. Every other field is its value or "unknown". A missing detail or userIdentity counts as empty. |
| CloudTrail.EmptyDetailIsUnknown | modules/dynamodb-billing-enforcer/lambda/index.py:65-78 | An empty detail with no top-level account or region gives "unknown" for the account, region and ARN, and the current time as event time. |
| Aws.Cloud.AfterDelete | modules/dynamodb-billing-enforcer/lambda/index.py:145 | Every delete attempt is recorded. A delete that succeeds removes exactly that table. A delete that fails leaves the tables unchanged. |
| Aws.Account.constructor | modules/dynamodb-billing-enforcer/lambda/index.py:44-52 | A fresh account has the given tables and faults and an empty call trace. |
| Aws.Account.DescribeTable | modules/dynamodb-billing-enforcer/lambda/index.py:124-127 | Returns the injected error, the table, or not-found. Records the call and changes nothing else. |
| Aws.Account.DeleteTable | modules/dynamodb-billing-enforcer/lambda/index.py:145 | Returns the injected error; otherwise "Requested resource not found" when the table is absent; otherwise succeeds and removes the table. Records the call. |
| Aws.Account.PutEvents | modules/dynamodb-billing-enforcer/lambda/index.py:173-182 | Returns the injected error or success. Records the entries sent and changes no table. |
| Aws.Account.Publish | modules/dynamodb-billing-enforcer/lambda/index.py:191-213 | Returns the injected error or success. Records the request sent and changes no table. |
| Enforcer.CheckExempt | modules/dynamodb-billing-enforcer/lambda/index.py:114-117 | The loop that stops at the first matching entry answers `IsExempt`: whether some entry, non-empty as written, has a trimmed form that prefixes the name. |
| Enforcer.LambdaHandler | modules/dynamodb-billing-enforcer/lambda/index.py:81-224 | The handler's result and the account's new tables and call trace are those of `Enforce` on the configuration read from the environment. |
| EnforcementProperties.ViolationTrace | modules/dynamodb-billing-enforcer/lambda/index.py:134-218 | For a non-exempt table found on-demand, the calls are describe, delete, put_events with one entry carrying the enforcement detail, and publish only when a topic is set. The result is 200 with the message and the delete outcome. The table is gone exactly when the delete succeeded. |
| EnforcementProperties.ViolationCounts | modules/dynamodb-billing-enforcer/lambda/index.py:143-216 | On the violation path there is exactly one describe, one delete and one broadcast, and one notification if and only if a topic is set. |
| EnforcementProperties.CallsMade | modules/dynamodb-billing-enforcer/lambda/index.py:103-220 | For every event, earlier calls are kept. A describe happens iff the event names a non-exempt table. A delete and a broadcast happen iff the policy is violated. A publish happens iff it is violated and a topic is set. Describe and delete target the event's table. Only a successful delete changes the tables. |
| EnforcementProperties.NoTableName | modules/dynamodb-billing-enforcer/lambda/index.py:103-108 | The body is "No table name" if and only if the table name is missing or empty. In that case no call is made. |
| EnforcementProperties.ExemptTableIsSkipped | modules/dynamodb-billing-enforcer/lambda/index.py:114-117 | An exempt table gets 200 with a body naming the table and saying "exempt". No AWS call is made. |
| EnforcementProperties.MissingTableIsSkipped | modules/dynamodb-billing-enforcer/lambda/index.py:123-129 | A table reported not found gets 200 "Table not found" after that one describe call. No table changes. |
| EnforcementProperties.OnlyDescribeErrorsAreRaised | modules/dynamodb-billing-enforcer/lambda/index.py:222-224 | The handler raises iff a non-exempt table's describe fails other than not-found, and it raises that error. Every other outcome returns 200. |
| EnforcementProperties.BillingModeDefault | modules/dynamodb-billing-enforcer/lambda/index.py:126 | The billing mode is the reported one, or `PROVISIONED` when the summary or the mode is missing. |
| EnforcementProperties.CompliantTableIsKept | modules/dynamodb-billing-enforcer/lambda/index.py:220 | A found table in any mode other than `PAY_PER_REQUEST` gets 200 "already provisioned" after the describe alone. It is not deleted. |
| EnforcementProperties.ViolationMessageContents | modules/dynamodb-billing-enforcer/lambda/index.py:135-152 | The message names the table, account, region, caller ARN and source IP. It ends with "ACTION: TABLE DELETED." when the delete succeeded, and the table is then gone. Otherwise it ends with "ACTION FAILED: " and the error, and the tables are unchanged. |
| EnforcementProperties.MessageNamesTheEvent | modules/dynamodb-billing-enforcer/lambda/index.py:135-141 | The violation message, with any suffix, contains the table name, account, region, ARN and source IP. |
| EnforcementProperties.BroadcastAndNotificationAgree | modules/dynamodb-billing-enforcer/lambda/index.py:155-213 | The broadcast detail and the SNS attributes carry the same action. It is `DELETED` iff the delete succeeded, and `DELETE_FAILED` otherwise. They also carry the same account, region and table. There are exactly four String attributes. The subject names the table. The detail carries the caller, the reason and both timestamps. The broadcast entry carries that detail, with the configured source and bus and the detail type "DynamoDB On-Demand Table Deleted". |
| EnforcementProperties.ReportingIsBestEffort | modules/dynamodb-billing-enforcer/lambda/index.py:171-216 | A failing put_events or publish changes neither the result, nor the calls made, nor the tables. |
| EnforcementProperties.RedeliveryAfterDeletion | modules/dynamodb-billing-enforcer/lambda/index.py:123-147 | Delivering the same event again after a successful deletion ends with "Table not found" after one describe. There is no second delete. |
| EnforcementProperties.ExemptionIgnoresOrder | modules/dynamodb-billing-enforcer/lambda/index.py:114-117 | Whether a table is exempt does not depend on the order of the exempt list. |
| EnforcementProperties.EmptyExemptListExemptsNothing | modules/dynamodb-billing-enforcer/lambda/index.py:38-115 | An unset or empty `EXEMPT_TABLE_PREFIXES` parses to `[""]`, which exempts no table. |
| EnforcementProperties.BlankEntryExemptsEverything | modules/dynamodb-billing-enforcer/lambda/index.py:115 | A non-empty, all-whitespace entry exempts every table. |
| EnforcementProperties.ExemptByEntry | modules/dynamodb-billing-enforcer/lambda/index.py:114-115 | A table is exempt iff some entry is non-empty as written and its trimmed form prefixes the name. |
| EnforcementProperties.PlainEntry | modules/dynamodb-billing-enforcer/lambda/index.py:115 | An entry with no surrounding whitespace exempts exactly the names it prefixes. |
| EnforcementProperties.TerraformPrefixesParse | modules/dynamodb-billing-enforcer/lambda/index.py:38 | `terraform-,infrastructure-` parses to those two entries. |
| EnforcementProperties.TerraformTableIsExempt | modules/dynamodb-billing-enforcer/lambda/index.py:114-117 | With those entries, `terraform-state-lock` is exempt. |
| EnforcementProperties.OtherTableIsNotExempt | modules/dynamodb-billing-enforcer/lambda/index.py:114-117 | With those entries, `test-table` is not exempt. |

## Left out

- Logging (`print`, `json.dumps` of the incoming event) is left out. It has no effect on the result or on AWS.
- The `Detail` of the broadcast entry is a structured `EnforcementDetail` record, not its JSON text. JSON serialisation is not modelled.
- `os.environ` is the map parameter `env`.
- `datetime.now(timezone.utc).isoformat()` is the two strings of `Clock`, one reading for the metadata fallback and one for the enforcement timestamp.
- `get_boto3_client` and boto3 are the `Aws.Account` object. A failure to construct the DynamoDB client would be raised from the outer handler. It is not separate from a describe failure. A failure to construct the EventBridge or SNS client is swallowed, like a failed call. Both cases are covered by the injected faults.
- The Lambda `context` parameter is left out. The handler does not use it.
- JSON `null` or wrongly typed event fields are left out (for example a `detail` that is not an object, or a non-string `tableName`). In Python these raise or render differently. The model covers present and absent keys only.
- Concurrency and eventual consistency of AWS are left out. Calls take effect in order, against a deterministic account whose faults are fixed for the invocation.
- The exemption loop of `lambda_handler` is its own method, `Enforcer.CheckExempt`. The handler calls it with the same early return.
- EnforcementProperties.RedeliveryAfterDeletion: a successful `delete_table` removes the table at once in this model, so the lemma covers a redelivery after the deletion has finished. DynamoDB keeps a deleted table in the DELETING state for a while; a redelivery in that window would find the table still on-demand, delete it again and report DELETE_FAILED, which the model does not capture.
