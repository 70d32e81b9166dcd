/** How both Slack-posting lambdas turn the webhook's HTTP status into the
    argument they pass to the Lambda callback. */
module Delivery {

  import Decimal
  import Wrappers

  /** The part of the webhook response the handlers look at. */
  datatype Response = Response(statusCode: int, statusMessage: string)

  /** Posted: callback(null). Rejected: an error is logged, then
      callback(null). ServerError: callback with an error text. */
  datatype Outcome = Posted | Rejected(log: string) | ServerError(error: string)

  /** The argument handed to the Lambda callback: null, an error text the
      handler composed, or the JSON serialisation of a caught exception. */
  datatype CallbackArg = Null | ErrorText(text: string) | SerializedError

  /** `sub` occurs in `s` starting at index `i`. */
  predicate OccursAt(sub: string, s: string, i: int) {
    0 <= i && i + |sub| <= |s| && s[i..i + |sub|] == sub
  }

  /** "<code> - <message>", as both log and error texts render a response. */
  function StatusText(r: Response): string {
    Decimal.IntToDecimal(r.statusCode) + " - " + r.statusMessage
  }

  function Classify(r: Response): (o: Outcome)
    ensures o.Posted? <==> r.statusCode < 400
    ensures o.Rejected? <==> 400 <= r.statusCode < 500
    ensures o.ServerError? <==> r.statusCode >= 500
    ensures o.Rejected? ==> OccursAt(Decimal.IntToDecimal(r.statusCode), o.log, 36)
    ensures o.ServerError? ==> OccursAt(Decimal.IntToDecimal(r.statusCode), o.error, 38)
  {
    var code := Decimal.IntToDecimal(r.statusCode);
    if r.statusCode < 400 then
      Posted
    else if r.statusCode < 500 then
      var log := "Error posting message to Slack API: " + StatusText(r);
      assert log[36..36 + |code|] == code;
      Rejected(log)
    else
      var error := "Server error when processing message: " + StatusText(r);
      assert error[38..38 + |code|] == code;
      ServerError(error)
  }

  function CallbackFor(o: Outcome): (arg: CallbackArg)
    ensures arg.Null? <==> !o.ServerError?
    ensures o.ServerError? ==> arg == ErrorText(o.error)
  {
    match o
    case Posted => Null
    case Rejected(_) => Null
    case ServerError(e) => ErrorText(e)
  }

  /** The status code can be read back from a server-error text, so the
      failure the invocation reports names the status that caused it. */
  lemma ServerErrorNamesStatus(r: Response)
    requires r.statusCode >= 500
    ensures var e := Classify(r).error;
            var code := Decimal.IntToDecimal(r.statusCode);
            Decimal.ParseDecimal(e[38..38 + |code|]) == Wrappers.Some(r.statusCode)
  {
    Decimal.IntDecimalRoundTrip(r.statusCode);
  }

  /** The three outcomes the lambdas' callers see for typical statuses. */
  lemma OutcomeExamples()
    ensures CallbackFor(Classify(Response(200, "OK"))) == Null
    ensures CallbackFor(Classify(Response(404, "Not Found"))) == Null
    ensures CallbackFor(Classify(Response(503, "Service Unavailable"))).ErrorText?
  {
  }
}
