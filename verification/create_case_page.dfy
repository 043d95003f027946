/** `src/pages/CreateCase.tsx`: the page a Teams message action opens. Once the Teams SDK
    has settled (initialised or failed), it builds the one selected message from the
    query string and hands it to the export panel.

    The query string is a map from parameter name to its first value; `Date.now()` and
    `new Date().toISOString()` are the parameters `now` and `isoNow`; the Teams context is
    `None` when `app.initialize()` or `app.getContext()` failed. */
module CreateCasePage {
  import opened Js
  import opened ExportPanel

  const ContentPlaceholder: string :=
    "Select this message to " + "create a service desk case " + "from your Teams " + "conversation."

  /** `searchParams.get(name)`: the value, or `null` when the parameter is absent. */
  function Param(params: map<string, string>, name: string): Option<string> {
    if name in params then Some(params[name]) else None
  }

  /** The message the page builds from the query string, with the extra fields the
      panel reads attached. */
  function ExtractMessage(params: map<string, string>, context: Option<Json>, now: nat, isoNow: string): Message {
    var text := Or(Param(params, "text"), Or(Param(params, "messageText"), ""));
    var contactName := Or(Param(params, "contactName"), Or(Param(params, "senderName"), PlaceholderContact));
    Message(
      Or(Param(params, "messageId"), "msg-" + NatToString(now)),
      contactName,
      if text != "" then text else ContentPlaceholder,
      Or(Param(params, "timestamp"), isoNow),
      Some(false),
      Some(contactName),
      Some(Or(Param(params, "contactEmail"), Or(Param(params, "senderEmail"), ""))),
      Some(Or(Param(params, "managerName"), "")),
      Some(Or(Param(params, "managerEmail"), "")),
      Some(Or(Param(params, "conversationId"), "")),
      Some(if context.Some? then context.value else JNull))
  }

  /** The selection handed to the panel: nothing until the SDK has settled, then the one
      message. */
  function Selection(settled: bool, params: map<string, string>, context: Option<Json>, now: nat, isoNow: string): seq<Message> {
    if settled then [ExtractMessage(params, context, now, isoNow)] else []
  }

  /** Before the SDK settles the panel has nothing to export; afterwards it has exactly
      one message. */
  lemma SelectionShape(settled: bool, params: map<string, string>, context: Option<Json>, now: nat, isoNow: string,
                        st: PanelState, localeTime: string -> string)
    ensures |Selection(settled, params, context, now, isoNow)| == (if settled then 1 else 0)
    ensures !settled ==> Gate(Selection(settled, params, context, now, isoNow), st, localeTime) == Rejected(NoMessagesToast)
  {
  }

  /** The extracted message: its text when one of `text` or `messageText` is non-empty
      (in that order), never empty content, a sender and id that are never empty, the
      sender repeated as contact name, and a `null` context when the SDK failed. */
  lemma ExtractedMessage(params: map<string, string>, context: Option<Json>, now: nat, isoNow: string)
    ensures var m := ExtractMessage(params, context, now, isoNow);
      && m.content != ""
      && (Truthy(Param(params, "text")) ==> m.content == params["text"])
      && (!Truthy(Param(params, "text")) && Truthy(Param(params, "messageText")) ==> m.content == params["messageText"])
      && (!Truthy(Param(params, "text")) && !Truthy(Param(params, "messageText")) ==> m.content == ContentPlaceholder)
      && m.sender != "" && m.contactName == Some(m.sender)
      && (!Truthy(Param(params, "contactName")) && !Truthy(Param(params, "senderName")) ==> m.sender == PlaceholderContact)
      && m.id != ""
      && (!Truthy(Param(params, "messageId")) ==> StartsWith(m.id, "msg-"))
      && m.isUser == Some(false)
      && (context.None? ==> m.teamsContext == Some(JNull))
  {
  }

  /** A query string naming no contact leaves the contact at the placeholder, which the
      panel does not copy: the contact stays empty and nothing can be exported until it
      is typed in. */
  lemma NoContactBlocksExport(params: map<string, string>, context: Option<Json>, now: nat, isoNow: string, localeTime: string -> string)
    requires forall k :: k in params ==> k !in {"contactName", "senderName", "contactEmail", "senderEmail"}
    ensures var sel := Selection(true, params, context, now, isoNow);
      && AutoPopulate(sel, Initial).contact == ""
      && !CanExport(sel, AutoPopulate(sel, Initial))
      && Gate(sel, AutoPopulate(sel, Initial), localeTime) == Rejected(MissingInfoToast)
  {
    var m := ExtractMessage(params, context, now, isoNow);
    assert "contactName" !in params && "senderName" !in params;
    assert "contactEmail" !in params && "senderEmail" !in params;
    assert m.contactName == Some(PlaceholderContact);
  }

  /** With a manager e-mail and a contact e-mail in the query string the panel is ready to
      export at once, addressed to exactly those two. */
  lemma EmailsMakeExportReady(params: map<string, string>, context: Option<Json>, now: nat, isoNow: string)
    requires "managerEmail" in params && params["managerEmail"] != ""
    requires "contactEmail" in params && params["contactEmail"] != ""
    ensures var sel := Selection(true, params, context, now, isoNow);
      && CanExport(sel, AutoPopulate(sel, Initial))
      && AutoPopulate(sel, Initial).manager == params["managerEmail"]
      && AutoPopulate(sel, Initial).contact == params["contactEmail"]
  {
  }

  /** Without message text the title the panel generates is the placeholder sentence
      itself. */
  lemma PlaceholderTitle(params: map<string, string>, context: Option<Json>, now: nat, isoNow: string)
    requires "text" !in params && "messageText" !in params
    ensures var sel := Selection(true, params, context, now, isoNow);
      AutoPopulate(sel, Initial).ticketTitle == ContentPlaceholder
  {
    PlaceholderIsItsTitle(ContentPlaceholder);
  }

  lemma PlaceholderIsItsTitle(s: string)
    requires s == ContentPlaceholder
    ensures GenerateTitle(s) == s
  {
    PlaceholderPlain(s, "Select this message to ", "create a service desk case ", "from your Teams ", "conversation.");
    NoAmpersandNoEntity(s);
    PlainShortTextIsTitle(s);
  }

  /** The placeholder, piece by piece: no bracket, no ampersand, no whitespace at its
      ends, 79 characters. */
  lemma PlaceholderPlain(s: string, a: string, b: string, c: string, d: string)
    requires a == "Select this message to " && b == "create a service desk case "
    requires c == "from your Teams " && d == "conversation."
    requires s == a + b + c + d
    ensures '[' !in s && '&' !in s && |s| == 79
    ensures !IsWhitespace(s[0]) && !IsWhitespace(s[|s| - 1])
  {
    NeitherBracketNorAmpersand(a);
    NeitherBracketNorAmpersand(b);
    NeitherBracketNorAmpersandTail(c);
    NeitherBracketNorAmpersandTail(d);
    assert s[0] == a[0];
    assert s[78] == d[12];
  }

  lemma NeitherBracketNorAmpersand(p: string)
    requires p in {"Select this message to ", "create a service desk case "}
    ensures '[' !in p && '&' !in p
  {
  }

  lemma NeitherBracketNorAmpersandTail(p: string)
    requires p in {"from your Teams ", "conversation."}
    ensures '[' !in p && '&' !in p
  {
  }
}
