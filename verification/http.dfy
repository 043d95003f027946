/** What an Azure Functions handler leaves in `context.res`, and the Bot Framework
    Activity envelope the bot handlers read. */
module Http {
  import opened Js

  /** The body of a response. `Text` is a plain string; `JsonBody` is an object handed to
      the Functions host, which serialises it; `JsonText` is the string
      `JSON.stringify(value)` built by the handler itself. */
  datatype Body = NoBody | Text(text: string) | JsonBody(value: Json) | JsonText(value: Json)

  datatype Response = Response(status: nat, headers: map<string, string>, body: Body)

  /** The request as a handler sees it: method, lower-cased header names, parsed body
      (`undefined` when absent). */
  datatype Request = Request(httpMethod: string, headers: map<string, string>, body: Option<Json>)

  const JsonContentType: map<string, string> := map["Content-Type" := "application/json"]

  /** `req.headers[name]`: the value when the header is present, `undefined` otherwise. */
  function Header(req: Request, name: string): Option<string> {
    if name in req.headers then Some(req.headers[name]) else None
  }
}

/** The Bot Framework Activity fields the Teams handlers read. Absent JSON fields are
    `None`. */
module Activities {
  import opened Js

  datatype ChannelAccount = ChannelAccount(id: Option<string>, name: Option<string>)

  datatype ConversationAccount = ConversationAccount(id: Option<string>, conversationType: Option<string>)

  datatype Activity = Activity(
    activityType: Option<string>,
    id: Option<string>,
    text: Option<string>,
    from: Option<ChannelAccount>,
    recipient: Option<ChannelAccount>,
    conversation: Option<ConversationAccount>,
    membersAdded: Option<seq<ChannelAccount>>,
    action: Option<string>,
    channelId: Option<string>,
    serviceUrl: Option<string>)

  /** `activity.conversation?.conversationType`. */
  function ConversationType(a: Activity): Option<string> {
    if a.conversation.Some? then a.conversation.value.conversationType else None
  }

  /** `activity.recipient?.id`: the bot's own identity in this conversation. */
  function BotId(a: Activity): Option<string> {
    if a.recipient.Some? then a.recipient.value.id else None
  }

  /** `activity.membersAdded || []`. */
  function MembersAdded(a: Activity): seq<ChannelAccount> {
    if a.membersAdded.Some? then a.membersAdded.value else []
  }

  /** The outcome of handing one HTTP request to a Bot Framework adapter, which
      authenticates it, builds the turn and runs the bot logic. The adapter may refuse
      the request and answer it itself without running the turn (`CloudAdapter.process`
      writes a 401 for an authentication error, and a 400 or 500 for other failures,
      through the response object it is given); it may run the turn on input `T` and
      write its own response; or an exception may escape it, before or after the turn
      (`BotFrameworkAdapter.processActivity` raises every failure, an authentication
      failure included, after writing its status). */
  datatype AdapterRun<T> =
    | Refused
    | ThrewBeforeTurn(error: JsError)
    | Ran(turn: T)
    | RanThenThrew(turn: T, error: JsError)
}
