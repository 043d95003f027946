/** `api/bot-simple/index.js`: a bot without the Bot Framework. It answers POSTed text by
    exact-match commands and returns the reply as an Activity in the HTTP body, with the
    routing fields copied from the inbound JSON. */
module BotSimple {
  import opened Js
  import opened Http

  const Welcome: string :=
    "Hello! " + "Welcome to Teams2Desk-Link. I can help you create service desk cases and manage support requests. How can I assist you today?"
  const HelpReply: string :=
    "Here's " + "what I can help you with:\n\n• Create service desk cases from Teams conversations\n• Export chat history for support tickets\n• Manage support requests directly in Teams\n\nJust say 'hi' to get started, or ask me about creating a case!"
  const CaseReply: string :=
    "Great! " + "To create a service desk case, you can:\n\n1. Use the 'Create case' command in Teams\n2. Or visit the Service Desk tab in this app\n\nWould you like me to help you with anything specific?"
  const ErrorText: string := "Sorry, I encountered an error processing your request. Please try again."
  const ReadyText: string := "Simple bot endpoint is ready! Send POST with message text to test bot logic."

  const CorsHeaders: map<string, string> := map[
    "Access-Control-Allow-Origin" := "*",
    "Access-Control-Allow-Methods" := "GET, POST, OPTIONS",
    "Access-Control-Allow-Headers" := "Content-Type"]

  /** The echo for text that matches no command. */
  function EchoReply(text: string): string {
    "I received " + "your message: \"" + text + "\". I'm a simple version of the Teams2Desk-Link bot. Try saying \"hi\", \"help\", or ask about creating cases!"
  }

  /** The commands the bot tells apart. */
  datatype Command = Greeting | Help | CaseHint | Unknown

  /** The command table: case-insensitive exact "hi"/"hello", then exact "help", then any
      text containing "case" or "ticket". */
  function CommandFor(text: string): Command {
    var lower := ToLower(text);
    if lower == "hi" || lower == "hello" then Greeting
    else if lower == "help" then Help
    else if Includes(lower, "case") || Includes(lower, "ticket") then CaseHint
    else Unknown
  }

  /** The reply to each command; an unknown text is echoed as it was sent. */
  function ReplyText(c: Command, text: string): string {
    match c
    case Greeting => Welcome
    case Help => HelpReply
    case CaseHint => CaseReply
    case Unknown => EchoReply(text)
  }

  function ReplyFor(text: string): string {
    ReplyText(CommandFor(text), text)
  }

  /** `req.body?.text || "hi"`: the message text, a JSON value. */
  function MessageText(req: Request): Json {
    JsonOr(PropOpt(req.body, "text"), JStr("hi"))
  }

  /** An account as the reply Activity carries it; the values are copied JSON. */
  datatype Account = Account(id: Json, name: Json)

  /** The Activity returned in the HTTP body (`type` is always "message"). `replyToId` is
      absent from the error Activity. */
  datatype ReplyActivity = ReplyActivity(
    text: string,
    from: Account,
    recipient: Account,
    conversationId: Json,
    replyToId: Option<Json>,
    channelId: Json,
    timestamp: string)
  {
    const activityType: string := "message"
  }

  /** The bot's fixed identity. */
  const BotAccount: Account := Account(JStr("teams2desk-bot"), JStr("Teams2Desk Bot"))

  /** `req.body?.<outer>?.<inner> || fallback`. */
  function Inbound2(req: Request, outer: string, inner: string, fallback: Json): Json {
    JsonOr(PropOpt(PropOpt(req.body, outer), inner), fallback)
  }

  /** The reply's recipient: the inbound sender, defaulted. */
  function Recipient(req: Request): Account {
    Account(Inbound2(req, "from", "id", JStr("user123")), Inbound2(req, "from", "name", JStr("User")))
  }

  function ConversationId(req: Request): Json {
    Inbound2(req, "conversation", "id", JStr("conv123"))
  }

  function ChannelOf(req: Request): Json {
    JsonOr(PropOpt(req.body, "channelId"), JStr("msteams"))
  }

  /** The reply Activity built on success; `now` is `new Date().toISOString()`. */
  function Reply(req: Request, text: string, now: string): ReplyActivity {
    ReplyActivity(text, BotAccount, Recipient(req), ConversationId(req),
      Some(JsonOr(PropOpt(req.body, "id"), JNull)), ChannelOf(req), now)
  }

  /** The Activity of the catch block: same routing, no `replyToId`. */
  function ErrorReply(req: Request, now: string): ReplyActivity {
    ReplyActivity(ErrorText, BotAccount, Recipient(req), ConversationId(req), None, ChannelOf(req), now)
  }

  /** The handler's answer: the HTTP status and headers, and the Activity in the body when
      there is one (`body` holds the plain text of GET). */
  datatype SimpleResponse = SimpleResponse(status: nat, headers: map<string, string>, body: Body, activity: Option<ReplyActivity>)

  /** The exported handler. OPTIONS and GET answer without an Activity. Any other method
      reads the text; a text that is not a string makes `toLowerCase` throw, which the
      catch block turns into a 500 carrying the error Activity. */
  function Handle(req: Request, now: string): SimpleResponse {
    if req.httpMethod == "OPTIONS" then SimpleResponse(200, CorsHeaders, NoBody, None)
    else if req.httpMethod == "GET" then
      SimpleResponse(200, map["Content-Type" := "text/plain"], Text(ReadyText), None)
    else
      match MessageText(req)
      case JStr(text) => SimpleResponse(200, JsonContentType, NoBody, Some(Reply(req, ReplyFor(text), now)))
      case _ => SimpleResponse(500, JsonContentType, NoBody, Some(ErrorReply(req, now)))
  }

  /** Greeting and help need the whole text to be the command, ignoring case: "hi there"
      is not a greeting. */
  lemma ExactMatchCommands(text: string)
    ensures CommandFor(text) == Greeting <==> ToLower(text) == "hi" || ToLower(text) == "hello"
    ensures CommandFor(text) == Help <==> ToLower(text) == "help"
    ensures CommandFor(text) == CaseHint <==>
      ToLower(text) !in {"hi", "hello", "help"} && (Includes(ToLower(text), "case") || Includes(ToLower(text), "ticket"))
  {
  }

  /** The four replies are pairwise different (they differ in their first characters). */
  lemma DistinctReplies(text: string)
    ensures Welcome != HelpReply && Welcome != CaseReply && HelpReply != CaseReply
    ensures EchoReply(text) != Welcome && EchoReply(text) != HelpReply && EchoReply(text) != CaseReply
  {
    assert Welcome[2] == 'l' && HelpReply[2] == 'r' && CaseReply[0] == 'G';
    assert EchoReply(text)[0] == 'I' && Welcome[0] == 'H' && HelpReply[0] == 'H';
  }

  /** The reply names the command it answers. */
  lemma ReplyNamesCommand(c1: Command, c2: Command, text: string)
    requires ReplyText(c1, text) == ReplyText(c2, text)
    ensures c1 == c2
  {
    DistinctReplies(text);
    match c1
    case Greeting =>
    case Help =>
    case CaseHint =>
    case Unknown =>
  }

  /** "hi there" is not a greeting. */
  lemma HiThereIsNoGreeting()
    ensures CommandFor("hi there") != Greeting
  {
    assert |ToLower("hi there")| == 8;
  }

  /** A POST with no usable text is read as "hi" and welcomed. */
  lemma MissingTextIsHi(req: Request, now: string)
    requires req.httpMethod != "OPTIONS" && req.httpMethod != "GET"
    requires !JsonTruthy(PropOpt(req.body, "text"))
    ensures Handle(req, now).status == 200
    ensures Handle(req, now).activity == Some(Reply(req, Welcome, now))
  {
    assert MessageText(req) == JStr("hi");
    HiIsWelcome("hi");
  }

  lemma HiIsWelcome(s: string)
    requires s == "hi"
    ensures CommandFor(s) == Greeting
  {
    assert ToLower(s) == s by {
      assert |ToLower(s)| == 2;
    }
  }

  /** The reply mirrors the inbound routing: the recipient is the inbound sender, the
      conversation and channel are the inbound ones, and `replyToId` is the inbound
      activity id, each replaced by its default only when the inbound field is missing
      or empty. The sender is always the bot. */
  lemma ReplyMirrorsRouting(req: Request, now: string, senderId: string, convId: string, channel: string, id: string)
    requires req.httpMethod != "OPTIONS" && req.httpMethod != "GET"
    requires MessageText(req).JStr?
    requires PropOpt(PropOpt(req.body, "from"), "id") == Some(JStr(senderId))
    requires PropOpt(PropOpt(req.body, "conversation"), "id") == Some(JStr(convId))
    requires PropOpt(req.body, "channelId") == Some(JStr(channel))
    requires PropOpt(req.body, "id") == Some(JStr(id))
    ensures Handle(req, now).status == 200 && Handle(req, now).activity.Some?
    ensures var r := Handle(req, now).activity.value;
      && r.recipient.id == JStr(if senderId == "" then "user123" else senderId)
      && r.conversationId == JStr(if convId == "" then "conv123" else convId)
      && r.channelId == JStr(if channel == "" then "msteams" else channel)
      && r.replyToId == Some(if id == "" then JNull else JStr(id))
      && r.from == BotAccount && r.timestamp == now
  {
  }

  /** With no body at all, every routing field takes its default. */
  lemma NoBodyDefaults(req: Request, now: string)
    requires req.httpMethod != "OPTIONS" && req.httpMethod != "GET" && req.body.None?
    ensures Handle(req, now).activity == Some(ReplyActivity(Welcome, BotAccount,
      Account(JStr("user123"), JStr("User")), JStr("conv123"), Some(JNull), JStr("msteams"), now))
  {
    MissingTextIsHi(req, now);
  }

  /** Whatever is POSTed, an Activity from the bot comes back; it is the command reply
      (status 200) exactly when the text is a string, and the error Activity (500)
      otherwise, which carries the same routing but no `replyToId`. */
  lemma AlwaysAnActivity(req: Request, now: string)
    requires req.httpMethod != "OPTIONS" && req.httpMethod != "GET"
    ensures Handle(req, now).activity.Some?
    ensures Handle(req, now).activity.value.from == BotAccount
    ensures Handle(req, now).activity.value.recipient == Recipient(req)
    ensures Handle(req, now).status == 200 <==> MessageText(req).JStr?
    ensures Handle(req, now).status == 500 <==> Handle(req, now).activity.value.replyToId.None?
  {
  }

  /** OPTIONS and GET never produce an Activity. */
  lemma PreflightAndProbe(req: Request, now: string)
    requires req.httpMethod == "OPTIONS" || req.httpMethod == "GET"
    ensures Handle(req, now).status == 200 && Handle(req, now).activity.None?
    ensures Handle(req, now).body == (if req.httpMethod == "OPTIONS" then NoBody else Text(ReadyText))
    ensures req.httpMethod == "OPTIONS" ==> Handle(req, now).headers == CorsHeaders
  {
  }
}
