/**
 * The inbound CloudTrail-via-EventBridge event and its normalisation into a
 * flat metadata record. Every key of the event may be missing, so every
 * field of the event is optional; every field of the metadata is filled.
 */
module CloudTrail {
  import opened Wrappers

  datatype UserIdentity = UserIdentity(
    identityType: Option<string>,   // the `type` key
    arn: Option<string>,
    principalId: Option<string>)

  datatype RequestParameters = RequestParameters(tableName: Option<string>)

  datatype Detail = Detail(
    recipientAccountId: Option<string>,
    awsRegion: Option<string>,
    eventTime: Option<string>,
    eventName: Option<string>,
    userIdentity: Option<UserIdentity>,
    sourceIPAddress: Option<string>,
    userAgent: Option<string>,
    requestParameters: Option<RequestParameters>)

  /** The top-level event: `account`, `region` and the `detail` section. */
  datatype Event = Event(account: Option<string>, region: Option<string>, detail: Option<Detail>)

  /** The empty dictionaries the source substitutes for a missing section. */
  const NoDetail := Detail(None, None, None, None, None, None, None, None)
  const NoIdentity := UserIdentity(None, None, None)
  const NoRequestParameters := RequestParameters(None)

  const Unknown := "unknown"

  datatype Metadata = Metadata(
    accountId: string,
    region: string,
    eventTime: string,
    eventName: string,
    userType: string,
    userArn: string,
    userPrincipal: string,
    sourceIp: string,
    userAgent: string)

  /**
   * Reference reading of a fallback chain: the value of the first present
   * source, or the fallback when none is present.
   */
  function FirstPresent(chain: seq<Option<string>>, fallback: string): (r: string)
    ensures (forall i :: 0 <= i < |chain| ==> chain[i].None?) ==> r == fallback
    ensures forall i :: 0 <= i < |chain| && chain[i].Some? && (forall j :: 0 <= j < i ==> chain[j].None?) ==> r == chain[i].value
  {
    if |chain| == 0 then fallback
    else if chain[0].Some? then chain[0].value
    else FirstPresent(chain[1..], fallback)
  }

  /** The `detail` section, or an empty one. */
  function DetailOf(event: Event): Detail {
    event.detail.GetOr(NoDetail)
  }

  /**
   * Total normalisation of an event. Account and region prefer the detail's
   * recipientAccountId / awsRegion, then the top-level account / region, then
   * "unknown"; the event time falls back to the current time `now`; every
   * other field falls back to "unknown".
   */
  function ExtractEventMetadata(event: Event, now: string): (m: Metadata)
    ensures var d := DetailOf(event);
            var u := d.userIdentity.GetOr(NoIdentity);
            && m.accountId == FirstPresent([d.recipientAccountId, event.account], Unknown)
            && m.region == FirstPresent([d.awsRegion, event.region], Unknown)
            && m.eventTime == FirstPresent([d.eventTime], now)
            && m.eventName == FirstPresent([d.eventName], Unknown)
            && m.userType == FirstPresent([u.identityType], Unknown)
            && m.userArn == FirstPresent([u.arn], Unknown)
            && m.userPrincipal == FirstPresent([u.principalId], Unknown)
            && m.sourceIp == FirstPresent([d.sourceIPAddress], Unknown)
            && m.userAgent == FirstPresent([d.userAgent], Unknown)
  {
    var detail := DetailOf(event);
    var userIdentity := detail.userIdentity.GetOr(NoIdentity);
    Metadata(
      accountId := detail.recipientAccountId.GetOr(event.account.GetOr(Unknown)),
      region := detail.awsRegion.GetOr(event.region.GetOr(Unknown)),
      eventTime := detail.eventTime.GetOr(now),
      eventName := detail.eventName.GetOr(Unknown),
      userType := userIdentity.identityType.GetOr(Unknown),
      userArn := userIdentity.arn.GetOr(Unknown),
      userPrincipal := userIdentity.principalId.GetOr(Unknown),
      sourceIp := detail.sourceIPAddress.GetOr(Unknown),
      userAgent := detail.userAgent.GetOr(Unknown))
  }

  /** An event whose detail is empty and that has no top-level account or region yields "unknown" for both. */
  lemma EmptyDetailIsUnknown(now: string)
    ensures var m := ExtractEventMetadata(Event(None, None, Some(NoDetail)), now);
            m.accountId == Unknown && m.region == Unknown && m.userArn == Unknown && m.eventTime == now
  {
  }

  /** `requestParameters.tableName`, or the empty string when any level is missing. */
  function TableNameOf(event: Event): string
  {
    DetailOf(event).requestParameters.GetOr(NoRequestParameters).tableName.GetOr("")
  }
}
