/** The GuardDuty findings lambda: bucket the finding's severity into a
    label and a colour, build a one-attachment Slack payload that carries
    them, and map the webhook status to the callback. */
module GuardDuty {

  import opened Wrappers
  import Delivery

  const Blue: string := "#0073bb"
  const Orange: string := "#eb5f07"
  const Red: string := "#d13212"

  /** The severity label and attachment colour of a finding. */
  datatype Classification = Classification(severity: string, color: string)

  /** The severity of the event: the decimal number written in the event,
      or None for a value every comparison rejects (missing or NaN). A
      severity written as 3.9, 6.9 or 8.9 parses to the same double as the
      bound it is compared with, so reading both as the written decimals
      gives the comparisons' answers. */
  predicate InRange(severity: Option<real>, lo: real, hi: real) {
    severity.Some? && severity.value <= hi && severity.value >= lo
  }

  /** The `switch (true)`: the first case that holds wins; if none holds
      the defaults NONE and blue stay. */
  function Classify(severity: Option<real>): (c: Classification)
    ensures c.severity == "LOW" <==> severity.Some? && 0.0 <= severity.value <= 3.9
    ensures c.severity == "MID" <==> severity.Some? && 4.0 <= severity.value <= 6.9
    ensures c.severity == "HIGH" <==> severity.Some? && 7.0 <= severity.value <= 8.9
    ensures c.severity in {"LOW", "MID", "HIGH", "NONE"}
    ensures c.color == Orange <==> c.severity == "MID"
    ensures c.color == Red <==> c.severity == "HIGH"
    ensures c.color == Blue <==> c.severity in {"LOW", "NONE"}
  {
    if InRange(severity, 0.0, 3.9) then Classification("LOW", Blue)
    else if InRange(severity, 4.0, 6.9) then Classification("MID", Orange)
    else if InRange(severity, 7.0, 8.9) then Classification("HIGH", Red)
    else Classification("NONE", Blue)
  }

  /** Order of the labels: NONE below LOW below MID below HIGH. */
  function Rank(severity: string): int {
    if severity == "LOW" then 1 else if severity == "MID" then 2 else if severity == "HIGH" then 3 else 0
  }

  /** Among classified severities a higher severity never gets a lower
      label. */
  lemma ClassifyMonotone(a: real, b: real)
    requires a <= b
    requires Classify(Some(a)).severity != "NONE" && Classify(Some(b)).severity != "NONE"
    ensures Rank(Classify(Some(a)).severity) <= Rank(Classify(Some(b)).severity)
  {
  }

  /** Severities in the gaps between the ranges, above them and below zero,
      and a missing severity, all fall to NONE with the default colour. */
  lemma ClassifyGaps()
    ensures Classify(Some(3.95)) == Classification("NONE", Blue)
    ensures Classify(Some(6.95)) == Classification("NONE", Blue)
    ensures Classify(Some(9.0)) == Classification("NONE", Blue)
    ensures Classify(Some(-0.5)) == Classification("NONE", Blue)
    ensures Classify(None) == Classification("NONE", Blue)
  {
  }

  datatype Field = Field(title: string, value: string, short: bool)

  datatype Attachment = Attachment(fallback: string, color: string, title: string, text: string, fields: seq<Field>)

  datatype Payload = Payload(text: string, attachments: seq<Attachment>, username: string, mrkdwn: bool)

  /** The event fields the handler reads, as the strings the template
      literals render; `additionalInfo` is already JSON text. */
  datatype Detail = Detail(
    severity: Option<real>,
    region: string,
    resourceType: string,
    eventLastSeen: string,
    additionalInfo: string,
    title: string,
    description: string,
    accountId: string,
    createdAt: string,
    updatedAt: string)

  datatype Event = Event(region: string, detail: Detail)

  /** The value of the first field with the given title. */
  function FieldValue(fields: seq<Field>, title: string): (r: Option<string>)
    ensures r.Some? <==> exists i :: 0 <= i < |fields| && fields[i].title == title
    decreases |fields|
  {
    if fields == [] then None
    else if fields[0].title == title then Some(fields[0].value)
    else FieldValue(fields[1..], title)
  }

  function BuildPayload(event: Event, prefix: string): (p: Payload)
    ensures |p.attachments| == 1
    ensures p.username == "GuardShield" && p.text == "" && p.mrkdwn
    ensures var c := Classify(event.detail.severity);
            && p.attachments[0].color == c.color
            && FieldValue(p.attachments[0].fields, "Severity") == Some(c.severity)
            && FieldValue(p.attachments[0].fields, "AccountId") == Some(event.detail.accountId)
            && FieldValue(p.attachments[0].fields, "Region") == Some(event.region)
  {
    var c := Classify(event.detail.severity);
    var d := event.detail;
    var tag := ":shield: [" + prefix + "] ";
    var fields :=
      [ Field("AccountId", d.accountId, true),
        Field("Region", event.region, true),
        Field("Severity", c.severity, true),
        Field("Resource Type", d.resourceType, true),
        Field("Created", d.createdAt, true),
        Field("Updated", d.updatedAt, true) ];
    assert FieldValue(fields, "Severity") == Some(c.severity) by {
      assert fields[0].title != "Severity" by { assert fields[0].title[0] != "Severity"[0]; }
      assert fields[1].title != "Severity" by { assert fields[1].title[0] != "Severity"[0]; }
      assert fields[1..][0] == fields[1];
      assert fields[1..][1..] == fields[2..];
      assert fields[2..][0] == fields[2];
      assert FieldValue(fields, "Severity") == FieldValue(fields[1..], "Severity");
      assert FieldValue(fields[1..], "Severity") == FieldValue(fields[2..], "Severity");
    }
    var attachment := Attachment(
      tag + c.severity + " " + d.region + " " + d.resourceType + " " + d.eventLastSeen + " " + d.additionalInfo,
      c.color,
      tag + d.title,
      d.description,
      fields);
    Payload("", [attachment], "GuardShield", true)
  }

  /** What one invocation does: the payload it posts and the callback
      argument chosen from the webhook's response. */
  datatype Invocation = Invocation(posted: Payload, callback: Delivery.CallbackArg)

  function Handle(event: Event, prefix: string, response: Delivery.Response): (r: Invocation)
    ensures r.posted == BuildPayload(event, prefix)
    ensures r.callback.Null? <==> response.statusCode < 500
    ensures response.statusCode >= 500 ==> r.callback.ErrorText?
  {
    Invocation(BuildPayload(event, prefix), Delivery.CallbackFor(Delivery.Classify(response)))
  }
}
