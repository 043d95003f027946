/** `api/bot-messages/index.js`: a smaller substring command table behind a POST gate. */
module BotMessages {
  import opened Js
  import opened Http
  import opened Activities
  import TeamsBot

  const HelloThere: string := "Hello there! 👋"
  const HelpReply: string := "Here's how I can help you..."
  const Sorry: string := "Sorry, I didn't understand that."
  const Running: string := "Bot endpoint is running"

  /** `activity.text?.toLowerCase() || ""`. */
  function TurnText(a: Activity): string {
    Or(if a.text.Some? then Some(ToLower(a.text.value)) else None, "")
  }

  /** The table: "hi" or "hello" greets, then "help", else the apology. */
  function ReplyFor(text: string): string {
    if Includes(text, "hi") || Includes(text, "hello") then HelloThere
    else if Includes(text, "help") then HelpReply
    else Sorry
  }

  /** The turn callback: exactly one reply per processed turn. */
  function Turn(a: Activity): (r: seq<string>)
    ensures |r| == 1 && (r[0] == HelloThere || r[0] == HelpReply || r[0] == Sorry)
  {
    [ReplyFor(TurnText(a))]
  }

  /** Missing text is matched as "" and so gets the apology. */
  lemma MissingTextApologises(a: Activity)
    requires a.text.None? || a.text.value == ""
    ensures Turn(a) == [Sorry]
  {
  }

  /** This table is the Teams bot's table without "hej", with the apology in place of
      the echo: without "hej" in the text the two make the same decision, and with it
      only the greeting can differ. */
  lemma AgreesWithTeamsTable(text: string)
    ensures !Includes(text, "hej") ==>
      && (ReplyFor(text) == HelloThere <==> TeamsBot.Classify(text) == TeamsBot.Greet)
      && (ReplyFor(text) == HelpReply <==> TeamsBot.Classify(text) == TeamsBot.Help)
      && (ReplyFor(text) == Sorry <==> TeamsBot.Classify(text) == TeamsBot.Echo)
    ensures ReplyFor(text) == HelloThere ==> TeamsBot.Classify(text) == TeamsBot.Greet
    ensures TeamsBot.Classify(text) == TeamsBot.Help ==> ReplyFor(text) == HelpReply
    ensures TeamsBot.Classify(text) == TeamsBot.Echo ==> ReplyFor(text) == Sorry
  {
  }

  /** "hej" is not in this table: it gets the apology. */
  lemma HejApologises()
    ensures ReplyFor("hej") == Sorry
  {
    var s := "hej";
    assert s[..2][1] != "hi"[1];
    assert s[1..][..2] != "hi";
    assert s[2..][..0] != "hi";
  }

  datatype EndpointResult = EndpointResult(response: Option<Response>, replies: seq<string>, adapterInvoked: bool)

  /** The `TypeError` that `processActivity` raises on its last step. It answers by
      calling `res.status(status)` whatever happened, and the `res` handed to it here is
      the Functions `context`, which has no `status` method. Only its message is read. */
  const ResStatusError: JsError := JsError(Some("res.status is not a function"), None)

  /** The replies a run delivered before the adapter returned or threw. */
  function Delivered(run: AdapterRun<Activity>): seq<string> {
    match run
    case Refused => []
    case ThrewBeforeTurn(_) => []
    case Ran(a) => Turn(a)
    case RanThenThrew(a, _) => Turn(a)
  }

  /** The exported handler as written. POST goes to the adapter, which, given the
      Functions `context` in place of a response object, always ends by throwing
      `ResStatusError`, and the catch turns that into a 500; any other method is
      answered with the liveness text. */
  function Endpoint(httpMethod: string, run: AdapterRun<Activity>): EndpointResult {
    if httpMethod == "POST" then EndpointResult(Some(ErrorResponse(ResStatusError)), Delivered(run), true)
    else EndpointResult(Some(Response(200, map[], Text(Running))), [], false)
  }

  /** The handler as evidently intended, with a response object the adapter can write
      to: a turn that runs to the end leaves the answer to the adapter, and an exception
      becomes a 500 carrying its message. */
  function IntendedEndpoint(httpMethod: string, run: AdapterRun<Activity>): EndpointResult {
    if httpMethod == "POST" then
      match run
      case Refused => EndpointResult(None, [], true)
      case ThrewBeforeTurn(e) => EndpointResult(Some(ErrorResponse(e)), [], true)
      case Ran(a) => EndpointResult(None, Turn(a), true)
      case RanThenThrew(a, e) => EndpointResult(Some(ErrorResponse(e)), Turn(a), true)
    else EndpointResult(Some(Response(200, map[], Text(Running))), [], false)
  }

  /** `{ status: 500, body: { error: error.message } }`. */
  function ErrorResponse(e: JsError): Response {
    Response(500, map[], JsonBody(Object([("error", StrOpt(e.message))])))
  }

  /** Any method other than POST gets the same 200 without processing; POST reaches the
      adapter, and an exception before the turn is a 500 with no reply. */
  lemma MethodGate(httpMethod: string, run1: AdapterRun<Activity>, run2: AdapterRun<Activity>)
    ensures httpMethod != "POST" ==>
      && Endpoint(httpMethod, run1) == Endpoint(httpMethod, run2)
      && Endpoint(httpMethod, run1).response == Some(Response(200, map[], Text(Running)))
      && Endpoint(httpMethod, run1).replies == [] && !Endpoint(httpMethod, run1).adapterInvoked
    ensures httpMethod == "POST" ==> Endpoint(httpMethod, run1).adapterInvoked
    ensures httpMethod == "POST" && run1.ThrewBeforeTurn? ==>
      && Endpoint(httpMethod, run1).response.Some?
      && Endpoint(httpMethod, run1).response.value.status == 500
      && Endpoint(httpMethod, run1).replies == []
    ensures httpMethod == "POST" && run1.Ran? ==> |Endpoint(httpMethod, run1).replies| == 1
  {
  }

  /** As written, every POST ends as the same 500 naming the missing `res.status`,
      whatever the adapter and the turn did: a turn that ran still delivered its one
      reply, and an error of the adapter's own is hidden behind the TypeError. */
  lemma EveryPostFails(run1: AdapterRun<Activity>, run2: AdapterRun<Activity>)
    ensures Endpoint("POST", run1).response == Endpoint("POST", run2).response
    ensures Endpoint("POST", run1).response.Some? && Endpoint("POST", run1).response.value.status == 500
    ensures Endpoint("POST", run1).response.value.body == JsonBody(JObj(map["error" := JStr("res.status is not a function")]))
    ensures run1.Ran? || run1.RanThenThrew? ==> |Endpoint("POST", run1).replies| == 1
    ensures run1.Refused? || run1.ThrewBeforeTurn? ==> Endpoint("POST", run1).replies == []
  {
    var f := [("error", StrOpt(ResStatusError.message))];
    ObjectField(f, 0);
    assert Object(f) == JObj(map["error" := JStr("res.status is not a function")]);
  }

  /** With a usable response object, a POST fails exactly when the adapter or the turn
      throws, and then with that exception's message, while a run the adapter answers
      itself is left to it; the replies and the method gate are those of the code as
      written. */
  lemma IntendedOutcomes(httpMethod: string, run: AdapterRun<Activity>)
    ensures IntendedEndpoint(httpMethod, run).replies == Endpoint(httpMethod, run).replies
    ensures httpMethod != "POST" ==> IntendedEndpoint(httpMethod, run) == Endpoint(httpMethod, run)
    ensures httpMethod == "POST" ==>
      && (IntendedEndpoint(httpMethod, run).response.None? <==> run.Ran? || run.Refused?)
      && (run.ThrewBeforeTurn? || run.RanThenThrew? ==>
            IntendedEndpoint(httpMethod, run).response == Some(ErrorResponse(run.error)))
  {
  }
}
