/** The Teams bot of `api/bot/index.js` and its twin `api/messages/index.js`: the four
    `TeamsBot` handlers, the order in which the Bot Framework runs them for one turn,
    and the Azure Functions entry point with its method gate and 500 error mapping.

    A turn's output is the list of reply texts handed to `sendActivity`, in order. */
module TeamsBot {
  import opened Js
  import opened Activities
  import opened Http

  const WelcomePersonal: string := "👋 Welcome to 2Go Service Desk! Type **hi** or **help** to begin."
  const WelcomeTeam: string := "👋 Hello team! I'm 2Go Service Desk bot. Mention me with **help** to get started."
  const WelcomeInstall: string := "👋 Hello team! I'm 2Go Service Desk bot. Mention me or type **help** to get started."
  const ThanksForAdding: string := "👋 Thanks for adding me to the team! Type **@2Go Service Desk help** to see what I can do."
  const Greeting: string := "Hi there! 👋 How can I help?"
  const HelpIntro: string := "I can create " + "support cases from Teams messages.\n\n"
  const HelpChat: string := "• In a **chat**, type **hi** or **help**.\n"
  const HelpTeam: string := "• In a **team**, mention me: **@2Go Service Desk help**."
  const HelpText: string := HelpIntro + HelpChat + HelpTeam
  const TurnErrorText: string := "The bot encountered an error."

  const Personal: Option<string> := Some("personal")
  const Channel: Option<string> := Some("channel")

  // ---------------------------------------------------------------------------
  // Members added
  // ---------------------------------------------------------------------------

  /** The members-added handler's loop: for each added member in order, a personal
      welcome when the scope is personal and the member is not the bot, and a team
      welcome when the scope is channel and the member is the bot. */
  function WelcomeLoop(convType: Option<string>, botId: Option<string>, added: seq<ChannelAccount>): seq<string>
  {
    if |added| == 0 then []
    else
      var m := added[0];
      (if convType == Personal && m.id != botId then [WelcomePersonal] else [])
      + (if convType == Channel && m.id == botId then [WelcomeTeam] else [])
      + WelcomeLoop(convType, botId, added[1..])
  }

  /** `onMembersAdded`. */
  function OnMembersAdded(a: Activity): seq<string> {
    WelcomeLoop(ConversationType(a), BotId(a), MembersAdded(a))
  }

  /** `n` copies of `s`. */
  function Repeat(s: string, n: nat): (r: seq<string>)
    ensures |r| == n && forall i :: 0 <= i < n ==> r[i] == s
  {
    if n == 0 then [] else [s] + Repeat(s, n - 1)
  }

  /** The added members that are not the bot. */
  function Others(botId: Option<string>, added: seq<ChannelAccount>): seq<ChannelAccount> {
    Filter(added, (m: ChannelAccount) => m.id != botId)
  }

  /** The added members that are the bot. */
  function BotEntries(botId: Option<string>, added: seq<ChannelAccount>): seq<ChannelAccount> {
    Filter(added, (m: ChannelAccount) => m.id == botId)
  }

  /** In personal scope the loop sends one personal welcome per added member other than
      the bot, and nothing else. */
  lemma {:induction false} PersonalWelcomes(botId: Option<string>, added: seq<ChannelAccount>)
    ensures WelcomeLoop(Personal, botId, added) == Repeat(WelcomePersonal, |Others(botId, added)|)
    decreases |added|
  {
    if |added| > 0 {
      PersonalWelcomes(botId, added[1..]);
    }
  }

  /** In channel scope the loop sends one team welcome per added entry that is the bot,
      and nothing else. */
  lemma {:induction false} ChannelWelcomes(botId: Option<string>, added: seq<ChannelAccount>)
    ensures WelcomeLoop(Channel, botId, added) == Repeat(WelcomeTeam, |BotEntries(botId, added)|)
    decreases |added|
  {
    if |added| > 0 {
      ChannelWelcomes(botId, added[1..]);
    }
  }

  /** Outside personal and channel scope (group chats, a missing conversation) the loop
      sends nothing. */
  lemma {:induction false} OtherScopesSilent(convType: Option<string>, botId: Option<string>, added: seq<ChannelAccount>)
    requires convType != Personal && convType != Channel
    ensures WelcomeLoop(convType, botId, added) == []
    decreases |added|
  {
    if |added| > 0 {
      OtherScopesSilent(convType, botId, added[1..]);
    }
  }

  /** The members-added handler, summarised per scope. In personal scope the bot's own
      addition earns no welcome. */
  lemma MembersAddedByScope(a: Activity)
    ensures ConversationType(a) == Personal ==>
      OnMembersAdded(a) == Repeat(WelcomePersonal, |Others(BotId(a), MembersAdded(a))|)
    ensures ConversationType(a) == Channel ==>
      OnMembersAdded(a) == Repeat(WelcomeTeam, |BotEntries(BotId(a), MembersAdded(a))|)
    ensures ConversationType(a) != Personal && ConversationType(a) != Channel ==> OnMembersAdded(a) == []
    ensures ConversationType(a) == Personal && (forall i :: 0 <= i < |MembersAdded(a)| ==> MembersAdded(a)[i].id == BotId(a))
      ==> OnMembersAdded(a) == []
  {
    var c, b, m := ConversationType(a), BotId(a), MembersAdded(a);
    if c == Personal {
      PersonalWelcomes(b, m);
      if forall i :: 0 <= i < |m| ==> m[i].id == b {
        FilterEmpty(m, (x: ChannelAccount) => x.id != b);
      }
    } else if c == Channel {
      ChannelWelcomes(b, m);
    } else {
      OtherScopesSilent(c, b, m);
    }
  }

  /** `Filter` keeps nothing exactly when no element satisfies the predicate. */
  lemma {:induction false} FilterEmpty<T>(s: seq<T>, p: T -> bool)
    ensures Filter(s, p) == [] <==> forall i :: 0 <= i < |s| ==> !p(s[i])
    decreases |s|
  {
    if |s| > 0 {
      FilterEmpty(s[1..], p);
      assert forall i :: 1 <= i < |s| ==> s[i] == s[1..][i - 1];
    }
  }

  // ---------------------------------------------------------------------------
  // Conversation update and installation update
  // ---------------------------------------------------------------------------

  /** Some added member is the bot itself (`added.some(m => m.id === recipient?.id)`). */
  predicate BotWasAdded(a: Activity) {
    exists i :: 0 <= i < |MembersAdded(a)| && MembersAdded(a)[i].id == BotId(a)
  }

  /** `onConversationUpdate`: in channel scope, one thank-you when the bot is among the
      added members. */
  function OnConversationUpdate(a: Activity): seq<string> {
    if ConversationType(a) == Channel && BotWasAdded(a) then [ThanksForAdding] else []
  }

  /** In channel scope the thank-you and the team welcome go together: the conversation
      update thanks exactly when the members-added handler welcomes, and it thanks once
      however many times the bot's id is listed. */
  lemma ThanksIffTeamWelcome(a: Activity)
    requires ConversationType(a) == Channel
    ensures |OnConversationUpdate(a)| <= 1
    ensures OnConversationUpdate(a) == [ThanksForAdding] <==> OnMembersAdded(a) != []
  {
    MembersAddedByScope(a);
    FilterEmpty(MembersAdded(a), (m: ChannelAccount) => m.id == BotId(a));
  }

  /** `onInstallationUpdateAdd`: one team welcome in channel scope, nothing elsewhere. */
  function OnInstallationUpdateAdd(a: Activity): (r: seq<string>)
    ensures r != [] <==> ConversationType(a) == Channel
    ensures r != [] ==> r == [WelcomeInstall]
  {
    if ConversationType(a) == Channel then [WelcomeInstall] else []
  }

  // ---------------------------------------------------------------------------
  // Messages
  // ---------------------------------------------------------------------------

  datatype Command = Greet | Help | Echo

  /** The text the command table is matched against. The lower-cased raw text, unless
      mention removal produced a string that is non-empty after trimming, in which case
      that string lower-cased and trimmed. `stripped` is what
      `TurnContext.removeRecipientMention` returned (`None` if it returned nothing or
      threw). */
  function CommandText(a: Activity, stripped: Option<string>): string {
    if Truthy(stripped) && Trim(stripped.value) != "" then Trim(ToLower(stripped.value))
    else ToLower(Or(a.text, ""))
  }

  /** The ordered command table: greeting tokens first, then help, else echo. */
  function Classify(text: string): Command {
    if Includes(text, "hi") || Includes(text, "hello") || Includes(text, "hej") then Greet
    else if Includes(text, "help") then Help
    else Echo
  }

  /** `context.activity.text` once `removeRecipientMention` has been called. The call
      writes the mention-stripped, trimmed text back into the activity and returns the
      activity's text, so when it returns, the activity's text is what it returned; when
      it throws, it has not touched the text. (It returns `undefined` only when the
      text was undefined to begin with.) */
  function TextAfterStrip(a: Activity, stripped: Option<string>): Option<string> {
    if stripped.Some? then stripped else a.text
  }

  /** The reply text of a command. The echo quotes the activity's text as it stands
      after mention removal, not the lower-cased command text. */
  function ReplyText(text: Option<string>, c: Command): string {
    match c
    case Greet => Greeting
    case Help => HelpText
    case Echo => "Echo: " + Or(text, "(empty)")
  }

  /** `onMessage`: exactly one reply, one of the three the table can produce; the echo
      is sent exactly when the table finds neither a greeting nor "help". */
  function OnMessage(a: Activity, stripped: Option<string>): (r: seq<string>)
    ensures |r| == 1
    ensures r[0] == Greeting || r[0] == HelpText || r[0] == "Echo: " + Or(TextAfterStrip(a, stripped), "(empty)")
    ensures Classify(CommandText(a, stripped)) == Echo <==> r[0] == "Echo: " + Or(TextAfterStrip(a, stripped), "(empty)")
  {
    EchoDiffers(TextAfterStrip(a, stripped));
    [ReplyText(TextAfterStrip(a, stripped), Classify(CommandText(a, stripped)))]
  }

  /** No echo is ever the greeting or the help text: both start differently. */
  lemma EchoDiffers(text: Option<string>)
    ensures "Echo: " + Or(text, "(empty)") != Greeting
    ensures "Echo: " + Or(text, "(empty)") != HelpText
  {
    var e := "Echo: " + Or(text, "(empty)");
    HelpTextStart();
    assert e[0] == 'E' && Greeting[0] == 'H';
  }

  lemma HelpTextStart()
    ensures HelpText[0] == 'I'
  {
    assert HelpIntro[0] == "I can create "[0];
    assert HelpText[0] == HelpIntro[0];
  }

  /** When mention removal returned a text, the echo quotes that text, with the mention
      gone; when it threw, the echo quotes the raw text. */
  lemma EchoQuotesStrippedText(a: Activity, stripped: Option<string>)
    requires Classify(CommandText(a, stripped)) == Echo
    ensures stripped.Some? ==> OnMessage(a, stripped) == ["Echo: " + Or(stripped, "(empty)")]
    ensures stripped.None? ==> OnMessage(a, stripped) == ["Echo: " + Or(a.text, "(empty)")]
  {
  }

  /** A mention followed by a word the table does not know: "<at>Bot</at> z" is
      stripped to "z", and the echo is "Echo: z", without the mention. */
  lemma MentionedEcho(a: Activity)
    requires a.activityType == Some("message") && a.text == Some("<at>Bot</at> z")
    ensures OnMessage(a, Some("z")) == ["Echo: z"]
  {
    var z := "z";
    LoneLetterCommand(a, z);
    LoneLetterEchoes(z);
    assert Or(TextAfterStrip(a, Some(z)), "(empty)") == z;
    assert OnMessage(a, Some(z)) == [ReplyText(Some(z), Echo)];
    assert "Echo: " + z == "Echo: z";
  }

  /** "z" is its own command text: there is nothing to trim or lower-case. */
  lemma LoneLetterCommand(a: Activity, z: string)
    requires z == "z"
    ensures CommandText(a, Some(z)) == z
  {
    assert !IsWhitespace(z[0]);
    assert TrimStart(z) == z;
    assert LowerChar(z[0]) == z[0];
    assert ToLower(z) == z;
  }

  /** "z" holds no token of the table. */
  lemma LoneLetterEchoes(z: string)
    requires z == "z"
    ensures Classify(z) == Echo
  {
    var rest := z[1..];
    assert rest == "";
    assert !Includes(rest, "hi") && !Includes(rest, "hello") && !Includes(rest, "hej") && !Includes(rest, "help");
  }

  /** A bare mention is stripped to "", and an echo of it reads "(empty)" rather than
      quoting the mention. */
  lemma BareMentionEcho(a: Activity)
    requires Classify(CommandText(a, Some(""))) == Echo
    ensures OnMessage(a, Some("")) == ["Echo: (empty)"]
  {
    assert Or(Some(""), "(empty)") == "(empty)";
    assert "Echo: " + "(empty)" == "Echo: (empty)";
  }

  /** The greeting tokens win over "help": any text containing "hi", "hello" or "hej"
      greets, whatever else it contains. */
  lemma GreetingBeforeHelp(a: Activity, stripped: Option<string>, pre: string, token: string, post: string)
    requires token == "hi" || token == "hello" || token == "hej"
    requires CommandText(a, stripped) == pre + token + post
    ensures OnMessage(a, stripped) == [Greeting]
  {
    assert StartsWith(token, token);
    IncludesInfix(pre, token, post, token);
  }

  /** "help" without any greeting token gets the help text. */
  lemma HelpWithoutGreeting(a: Activity, stripped: Option<string>, pre: string, post: string)
    requires CommandText(a, stripped) == pre + "help" + post
    requires !Includes(CommandText(a, stripped), "hi") && !Includes(CommandText(a, stripped), "hello")
    requires !Includes(CommandText(a, stripped), "hej")
    ensures OnMessage(a, stripped) == [HelpText]
  {
    assert StartsWith("help", "help");
    IncludesInfix(pre, "help", post, "help");
  }

  /** Lower-casing twice is lower-casing once. */
  lemma ToLowerIdempotent(s: string)
    ensures ToLower(ToLower(s)) == ToLower(s)
  {
  }

  /** Matching is case-insensitive: an activity whose text differs only in letter case
      (and no usable mention-stripped text) is classified the same way. */
  lemma CaseInsensitive(a: Activity, b: Activity)
    requires Truthy(a.text) && Truthy(b.text) && ToLower(a.text.value) == ToLower(b.text.value)
    ensures Classify(CommandText(a, None)) == Classify(CommandText(b, None))
  {
  }

  /** Once mention removal yields usable text, the raw text no longer matters: two
      activities with the same stripped text are classified alike. */
  lemma StrippedTextDecides(a: Activity, b: Activity, stripped: string)
    requires Trim(stripped) != ""
    ensures Classify(CommandText(a, Some(stripped))) == Classify(CommandText(b, Some(stripped)))
  {
  }

  /** An empty or whitespace-only stripped text falls back to the untrimmed lower-cased
      raw text. */
  lemma BlankStrippedFallsBack(a: Activity, stripped: Option<string>)
    requires stripped.None? || Trim(stripped.value) == ""
    ensures CommandText(a, stripped) == ToLower(Or(a.text, ""))
  {
  }

  // ---------------------------------------------------------------------------
  // One turn
  // ---------------------------------------------------------------------------

  /** An installation update counts as an add for the actions "add" and "add-upgrade". */
  predicate IsInstallAdd(a: Activity) {
    a.action == Some("add") || a.action == Some("add-upgrade")
  }

  /** The replies the bot sends for one activity, in order. Conversation updates run the
      conversation-update handler first and, when members were added, the members-added
      handler after it. Every other activity type is ignored. */
  function Run(a: Activity, stripped: Option<string>): seq<string> {
    if a.activityType == Some("message") then OnMessage(a, stripped)
    else if a.activityType == Some("conversationUpdate") then
      OnConversationUpdate(a) + (if |MembersAdded(a)| > 0 then OnMembersAdded(a) else [])
    else if a.activityType == Some("installationUpdate") then
      (if IsInstallAdd(a) then OnInstallationUpdateAdd(a) else [])
    else []
  }

  /** A conversation update in channel scope that adds only the bot thanks once and
      welcomes the team once, while one in personal scope that adds only the bot sends
      nothing. */
  lemma BotAddedAlone(a: Activity)
    requires a.activityType == Some("conversationUpdate")
    requires MembersAdded(a) == [ChannelAccount(BotId(a), None)]
    ensures ConversationType(a) == Channel ==> Run(a, None) == [ThanksForAdding, WelcomeTeam]
    ensures ConversationType(a) == Personal ==> Run(a, None) == []
  {
    var m := MembersAdded(a);
    assert BotWasAdded(a) by {
      assert m[0].id == BotId(a);
    }
    assert m[1..] == [];
    assert WelcomeLoop(ConversationType(a), BotId(a), m[1..]) == [];
  }

  /** A conversation update in channel scope whose added members are all people sends
      nothing. */
  lemma PeopleJoiningChannelSilent(a: Activity)
    requires a.activityType == Some("conversationUpdate") && ConversationType(a) == Channel
    requires forall i :: 0 <= i < |MembersAdded(a)| ==> MembersAdded(a)[i].id != BotId(a)
    ensures Run(a, None) == []
  {
    MembersAddedByScope(a);
    FilterEmpty(MembersAdded(a), (m: ChannelAccount) => m.id == BotId(a));
  }

  /** A conversation update in personal scope greets each added person once and never
      thanks. */
  lemma PersonalConversationUpdate(a: Activity)
    requires a.activityType == Some("conversationUpdate") && ConversationType(a) == Personal
    ensures Run(a, None) == Repeat(WelcomePersonal, |Others(BotId(a), MembersAdded(a))|)
  {
    MembersAddedByScope(a);
  }

  /** Every message activity gets exactly one reply. */
  lemma MessageGetsOneReply(a: Activity, stripped: Option<string>)
    requires a.activityType == Some("message")
    ensures |Run(a, stripped)| == 1
  {
  }

  /** The turn as the adapter runs it: the activity, what mention removal returns, and
      the index of the first `sendActivity` call that throws, if any. */
  datatype TeamsTurn = TeamsTurn(activity: Activity, stripped: Option<string>, sendFailsAt: Option<nat>)

  /** The replies a turn hands to the transport: the planned replies up to the first one
      whose send throws; in that case the adapter's `onTurnError` then sends the error
      notice. */
  function TurnReplies(t: TeamsTurn): (r: seq<string>)
    ensures t.sendFailsAt.None? ==> r == Run(t.activity, t.stripped)
    ensures t.sendFailsAt.Some? && t.sendFailsAt.value < |Run(t.activity, t.stripped)| ==>
      |r| == t.sendFailsAt.value + 1 && r[|r| - 1] == TurnErrorText
    ensures |r| <= |Run(t.activity, t.stripped)| || r == Run(t.activity, t.stripped)
    ensures forall i :: 0 <= i < |r| - 1 ==> r[i] == Run(t.activity, t.stripped)[i]
  {
    var planned := Run(t.activity, t.stripped);
    if t.sendFailsAt.Some? && t.sendFailsAt.value < |planned| then
      planned[..t.sendFailsAt.value] + [TurnErrorText]
    else planned
  }

  // ---------------------------------------------------------------------------
  // The Azure Functions entry point
  // ---------------------------------------------------------------------------

  /** What the entry point does with one HTTP request: the response it sets itself
      (`None` when the adapter writes the response), the replies sent, and whether the
      adapter was handed the request at all. */
  datatype EndpointResult = EndpointResult(response: Option<Response>, replies: seq<string>, adapterInvoked: bool)

  /** The 500 body `JSON.stringify({ error: error.message, stack: error.stack })`. */
  function ErrorBody(e: JsError): Json {
    Object([("error", StrOpt(e.message)), ("stack", StrOpt(e.stack))])
  }

  function ErrorResponse(e: JsError): Response {
    Response(500, JsonContentType, JsonText(ErrorBody(e)))
  }

  /** The shared entry point, parameterised by its liveness text. */
  function Endpoint(httpMethod: string, run: AdapterRun<TeamsTurn>, aliveText: string): EndpointResult {
    if httpMethod == "OPTIONS" then EndpointResult(Some(Response(200, map[], Text(""))), [], false)
    else if httpMethod == "GET" then EndpointResult(Some(Response(200, map[], Text(aliveText))), [], false)
    else
      match run
      case Refused => EndpointResult(None, [], true)
      case ThrewBeforeTurn(e) => EndpointResult(Some(ErrorResponse(e)), [], true)
      case Ran(t) => EndpointResult(None, TurnReplies(t), true)
      case RanThenThrew(t, e) => EndpointResult(Some(ErrorResponse(e)), TurnReplies(t), true)
  }

  const BotAlive: string := "bot endpoint is alive"
  const MessagesAlive: string := "messages endpoint is alive"

  /** `api/bot`'s exported handler. */
  function BotEndpoint(httpMethod: string, run: AdapterRun<TeamsTurn>): EndpointResult {
    Endpoint(httpMethod, run, BotAlive)
  }

  /** `api/messages`'s exported handler. */
  function MessagesEndpoint(httpMethod: string, run: AdapterRun<TeamsTurn>): EndpointResult {
    Endpoint(httpMethod, run, MessagesAlive)
  }

  /** OPTIONS and GET are answered without the adapter: the result does not depend on
      what the adapter would have done, no reply is sent, and the answer is a 200 with
      an empty body or the liveness text. */
  lemma MethodGate(httpMethod: string, run1: AdapterRun<TeamsTurn>, run2: AdapterRun<TeamsTurn>, aliveText: string)
    requires httpMethod == "OPTIONS" || httpMethod == "GET"
    ensures Endpoint(httpMethod, run1, aliveText) == Endpoint(httpMethod, run2, aliveText)
    ensures !Endpoint(httpMethod, run1, aliveText).adapterInvoked
    ensures Endpoint(httpMethod, run1, aliveText).replies == []
    ensures Endpoint(httpMethod, run1, aliveText).response
      == Some(Response(200, map[], Text(if httpMethod == "OPTIONS" then "" else aliveText)))
  {
  }

  /** Every other method goes to the adapter. An exception that escapes it becomes a
      500 whose JSON body carries the error's message and stack; an exception before the
      turn means no reply at all. A request the adapter refuses (an unauthenticated one,
      say) is answered by the adapter alone: the handler sets nothing and nothing is
      sent. */
  lemma ErrorMapping(httpMethod: string, run: AdapterRun<TeamsTurn>, aliveText: string)
    requires httpMethod != "OPTIONS" && httpMethod != "GET"
    ensures Endpoint(httpMethod, run, aliveText).adapterInvoked
    ensures run.ThrewBeforeTurn? || run.Refused? ==> Endpoint(httpMethod, run, aliveText).replies == []
    ensures run.ThrewBeforeTurn? || run.RanThenThrew? ==>
      Endpoint(httpMethod, run, aliveText).response == Some(ErrorResponse(run.error))
    ensures Endpoint(httpMethod, run, aliveText).response.None? <==> run.Ran? || run.Refused?
  {
  }

  /** The handler's own responses are 200 or 500, never 401: a 401 can only come from
      the adapter, in the response it writes itself. */
  lemma NoUnauthorizedStatus(httpMethod: string, run: AdapterRun<TeamsTurn>, aliveText: string)
    ensures Endpoint(httpMethod, run, aliveText).response.Some? ==>
      Endpoint(httpMethod, run, aliveText).response.value.status in {200, 500}
  {
  }

  /** The 500 body names exactly the error's defined fields. */
  lemma ErrorBodyFields(e: JsError)
    ensures ErrorBody(e).JObj?
    ensures ("error" in ErrorBody(e).fields) <==> e.message.Some?
    ensures ("stack" in ErrorBody(e).fields) <==> e.stack.Some?
    ensures e.message.Some? ==> ErrorBody(e).fields["error"] == JStr(e.message.value)
  {
  }

  /** "hi help" greets, and so does "this", which contains "hi". */
  lemma GreetingExamples()
    ensures Classify("hi help") == Greet
    ensures Classify("this") == Greet
  {
    assert StartsWith("hi help", "hi");
    assert StartsWith("this"[1..], "hi");
  }

  /** Empty text falls through to the echo. */
  lemma EmptyEchoes()
    ensures Classify("") == Echo
  {
  }
}
