/** `api/bot-auth/index.js`: an authorization-header gate in front of a one-rule echo
    bot that is run directly, without the adapter's middleware.

    `adapter.createContext(req, context.res)` is handed the HTTP request, which the
    adapter takes as the turn's activity; a failure of `sendActivity` is an input. */
module BotAuth {
  import opened Js
  import opened Http
  import opened Activities

  const Processed: string := "Activity processed successfully"

  /** `bot.onTurn`: a message activity gets one reply `Echo: ${text}` (a missing text
      renders as "undefined"); any other activity gets none. */
  function OnTurn(a: Activity): (r: seq<string>)
    ensures a.activityType == Some("message") <==> |r| == 1
    ensures a.activityType != Some("message") <==> r == []
  {
    if a.activityType == Some("message") then ["Echo: " + Template(a.text)] else []
  }

  /** What the handler did: its response, the replies delivered, and whether the bot's
      turn ran. */
  datatype AuthResult = AuthResult(response: Response, replies: seq<string>, turnRan: bool)

  function Failure(details: Option<string>): Response {
    Response(500, map[], JsonBody(Object([("error", Some(JStr("Internal server error"))), ("details", StrOpt(details))])))
  }

  const NoHeader: Response := Response(401, map[], JsonBody(JObj(map["error" := JStr("No authorization header")])))

  /** The handler around a turn on activity `turn`; `sendError` is the exception
      `sendActivity` throws, if it does. */
  function Process(req: Request, turn: Activity, sendError: Option<JsError>): AuthResult {
    if !Truthy(Header(req, "authorization")) then AuthResult(NoHeader, [], false)
    else if req.body.None? || req.body.value.JNull? then
      // `activity.type` on a missing body throws a TypeError
      AuthResult(Failure(Some(ReadPropertyError(req.body.Some?, "type"))), [], false)
    else
      var planned := OnTurn(turn);
      if planned != [] && sendError.Some? then AuthResult(Failure(sendError.value.message), [], true)
      else AuthResult(Response(200, map[], JsonBody(JObj(map["message" := JStr(Processed)]))), planned, true)
  }

  /** The activity of the turn context `BotFrameworkAdapter.createContext(req, ...)`
      builds: the adapter takes its argument as the activity, and the Azure Functions
      request object (method, url, headers, query, params, body) has none of the
      Activity's fields. */
  function RequestAsActivity(req: Request): Activity {
    Activity(None, None, None, None, None, None, None, None, None, None)
  }

  /** The exported handler as written: the turn runs on the request object itself. */
  function Handle(req: Request, sendError: Option<JsError>): AuthResult {
    Process(req, RequestAsActivity(req), sendError)
  }

  /** A string-valued property of a JSON value; `undefined` otherwise. */
  function StringProp(v: Json, key: string): Option<string> {
    match Prop(v, key)
    case Some(JStr(t)) => Some(t)
    case _ => None
  }

  /** The activity the POSTed body carries: its `type` and `text`, the only fields the
      turn reads. */
  function BodyActivity(body: Json): Activity {
    Activity(StringProp(body, "type"), None, StringProp(body, "text"), None, None, None, None, None, None, None)
  }

  /** The handler as evidently intended: the turn runs on the activity in the body, the
      one the handler reads into `activity` and logs. */
  function HandleIntended(req: Request, sendError: Option<JsError>): AuthResult {
    Process(req, if req.body.Some? then BodyActivity(req.body.value) else RequestAsActivity(req), sendError)
  }

  /** Without an authorization header the answer is the same 401 whatever the body, the
      turn or the transport would have done, the bot's turn never runs, and nothing is
      sent. */
  lemma MissingHeaderRejects(req: Request, turn1: Activity, turn2: Activity, e1: Option<JsError>, e2: Option<JsError>)
    requires !Truthy(Header(req, "authorization"))
    ensures Process(req, turn1, e1) == Process(req, turn2, e2)
    ensures Process(req, turn1, e1).response.status == 401
    ensures !Process(req, turn1, e1).turnRan && Process(req, turn1, e1).replies == []
  {
  }

  /** As written, the bot never replies: the request object is no message activity, so
      every request with a header and a body is acknowledged with a 200 and no echo,
      whatever the body says and whether or not the transport works. */
  lemma NeverReplies(req: Request, e1: Option<JsError>, e2: Option<JsError>)
    ensures Handle(req, e1) == Handle(req, e2)
    ensures Handle(req, e1).replies == []
    ensures Truthy(Header(req, "authorization")) && req.body.Some? && !req.body.value.JNull? ==>
      Handle(req, e1).response.status == 200 && Handle(req, e1).turnRan
  {
  }

  /** With the activity taken from the body, a message activity whose reply is delivered
      yields exactly one reply quoting its text, and a 200. */
  lemma MessageEchoes(req: Request, text: string)
    requires Truthy(Header(req, "authorization")) && req.body.Some? && !req.body.value.JNull?
    requires Prop(req.body.value, "type") == Some(JStr("message"))
    requires Prop(req.body.value, "text") == Some(JStr(text))
    ensures HandleIntended(req, None).replies == ["Echo: " + text]
    ensures HandleIntended(req, None).response.status == 200
    ensures Handle(req, None).replies == []
  {
  }

  /** A non-message activity is acknowledged with a 200 and no reply, even if the
      transport is broken. */
  lemma NonMessageSilent(req: Request, turn: Activity, sendError: Option<JsError>)
    requires Truthy(Header(req, "authorization")) && req.body.Some? && !req.body.value.JNull?
    requires turn.activityType != Some("message")
    ensures Process(req, turn, sendError).replies == []
    ensures Process(req, turn, sendError).response.status == 200
    ensures Process(req, turn, sendError).turnRan
  {
  }

  /** Every status the handler sets is 200, 401 or 500, and a 200 means the turn ran. */
  lemma StatusSummary(req: Request, turn: Activity, sendError: Option<JsError>)
    ensures Process(req, turn, sendError).response.status in {200, 401, 500}
    ensures Process(req, turn, sendError).response.status == 200 ==> Process(req, turn, sendError).turnRan
    ensures Process(req, turn, sendError).response.status == 500 ==> Process(req, turn, sendError).replies == []
  {
  }
}
