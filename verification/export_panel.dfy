/** `src/components/ExportPanel.tsx`: the client-side preparation of a case, the gate in
    front of the submission, the handling of the answer, and the effect that fills the
    form from the selected message.

    React state is a `PanelState` value; each handler or effect is a function from the
    state it reads to the state it leaves. `new Date(ts).toLocaleString()` depends on
    the browser's locale and time zone and is the parameter `localeTime`; the answer of
    `fetch('/api/create-case', ...)` is an input. */
module ExportPanel {
  import opened Js
  import TimestampPattern

  /** A selected message. The first five fields are the declared interface; the rest are
      attached by the page that hosts the panel and may be absent. */
  datatype Message = Message(
    id: string,
    sender: string,
    content: string,
    timestamp: string,
    isUser: Option<bool>,
    contactName: Option<string>,
    contactEmail: Option<string>,
    managerName: Option<string>,
    managerEmail: Option<string>,
    conversationId: Option<string>,
    teamsContext: Option<Json>)

  // ---------------------------------------------------------------------------
  // Title synthesis
  // ---------------------------------------------------------------------------

  const Nbsp: string := "&nbsp;"
  const TitleLimit: nat := 100
  const Ellipsis: string := "..."

  /** The content with timestamp tokens deleted, `&nbsp;` turned into spaces, and the
      ends trimmed. */
  function CleanContent(content: string): string {
    Trim(ReplaceAll(TimestampPattern.Strip(content), Nbsp, " "))
  }

  /** `generateTicketTitle`: the first 100 characters of the cleaned content, with an
      ellipsis when something was cut. */
  function GenerateTitle(content: string): string {
    var clean := CleanContent(content);
    var preview := Substring(clean, 0, TitleLimit);
    if |preview| < |clean| then preview + Ellipsis else preview
  }

  /** A cleaned content of at most 100 characters is the title itself; a longer one is
      cut to its first 100 characters followed by "...". Either way the title has at
      most 103 characters and starts with the cleaned content's beginning. */
  lemma TitleShape(content: string)
    ensures var clean := CleanContent(content);
      && (|clean| <= TitleLimit ==> GenerateTitle(content) == clean)
      && (|clean| > TitleLimit ==> GenerateTitle(content) == clean[..TitleLimit] + Ellipsis)
      && |GenerateTitle(content)| <= TitleLimit + 3
      && (GenerateTitle(content) == clean || StartsWith(clean, GenerateTitle(content)[..TitleLimit]))
  {
    PrefixSubstring(CleanContent(content), TitleLimit);
  }

  /** The cleaned content holds no `&nbsp;` entity and neither starts nor ends with
      whitespace. */
  lemma CleanContentIsClean(content: string)
    ensures !Includes(CleanContent(content), Nbsp)
    ensures var c := CleanContent(content); c == [] || (!IsWhitespace(c[0]) && !IsWhitespace(c[|c| - 1]))
  {
    var replaced := ReplaceAll(TimestampPattern.Strip(content), Nbsp, " ");
    ReplaceAllLeavesNone(TimestampPattern.Strip(content), Nbsp, " ");
    TrimKeepsAbsence(replaced, Nbsp);
    TrimEnds(replaced);
  }

  /** Text with nothing to clean is its own title when short. */
  lemma PlainShortTextIsTitle(content: string)
    requires '[' !in content && !Includes(content, Nbsp)
    requires content == [] || (!IsWhitespace(content[0]) && !IsWhitespace(content[|content| - 1]))
    requires |content| <= TitleLimit
    ensures GenerateTitle(content) == content
  {
    TimestampPattern.NoBracketUnchanged(content);
    ReplaceAllIdentity(content, Nbsp, " ");
    TrimUnchanged(content);
  }

  /** Text without an ampersand holds no `&nbsp;`. */
  lemma NoAmpersandNoEntity(s: string)
    requires '&' !in s
    ensures !Includes(s, Nbsp)
  {
    if Includes(s, Nbsp) {
      var i := IncludesOccurs(s, Nbsp);
      EntityStartsWithAmpersand(s, i);
    }
  }

  lemma EntityStartsWithAmpersand(s: string, i: int)
    requires OccursAt(s, Nbsp, i)
    ensures '&' in s
  {
    assert s[i] == s[i..i + |Nbsp|][0];
  }

  /** `ReplaceAll` changes nothing when the pattern does not occur. */
  lemma {:induction false} ReplaceAllIdentity(s: string, p: string, q: string)
    requires |p| > 0 && !Includes(s, p)
    ensures ReplaceAll(s, p, q) == s
    decreases |s|
  {
    if |s| > 0 {
      ReplaceAllIdentity(s[1..], p, q);
      assert s == [s[0]] + s[1..];
    }
  }

  /** `Trim` changes nothing when neither end is whitespace. */
  lemma TrimUnchanged(s: string)
    requires s == [] || (!IsWhitespace(s[0]) && !IsWhitespace(s[|s| - 1]))
    ensures Trim(s) == s
  {
  }

  // ---------------------------------------------------------------------------
  // Transcript
  // ---------------------------------------------------------------------------

  const Separator: string := "\n\n"

  /** `Array.prototype.join`: "" for no parts, otherwise the parts with `sep` between
      consecutive ones. */
  function Join(parts: seq<string>, sep: string): string
    decreases |parts|
  {
    if |parts| == 0 then ""
    else if |parts| == 1 then parts[0]
    else parts[0] + sep + Join(parts[1..], sep)
  }

  /** One message as a transcript line: `[${time}] ${sender}: ${content}`. */
  function Segment(m: Message, localeTime: string -> string): string {
    "[" + localeTime(m.timestamp) + "] " + m.sender + ": " + m.content
  }

  function Segments(msgs: seq<Message>, localeTime: string -> string): (r: seq<string>)
    ensures |r| == |msgs|
    ensures forall i :: 0 <= i < |msgs| ==> r[i] == Segment(msgs[i], localeTime)
  {
    seq(|msgs|, i requires 0 <= i < |msgs| => Segment(msgs[i], localeTime))
  }

  /** `formatConversation`. */
  function FormatConversation(msgs: seq<Message>, localeTime: string -> string): string {
    if |msgs| == 0 then "" else Join(Segments(msgs, localeTime), Separator)
  }

  lemma {:induction false} JoinAppend(a: seq<string>, b: seq<string>, sep: string)
    requires |a| > 0 && |b| > 0
    ensures Join(a + b, sep) == Join(a, sep) + sep + Join(b, sep)
    decreases |a|
  {
    if |a| > 1 {
      assert (a + b)[1..] == a[1..] + b;
      JoinAppend(a[1..], b, sep);
    } else {
      assert (a + b)[1..] == b;
    }
  }

  /** The transcript of a longer selection is the transcripts of its two parts, separated
      by a blank line. */
  lemma FormatAppend(a: seq<Message>, b: seq<Message>, localeTime: string -> string)
    requires |a| > 0 && |b| > 0
    ensures FormatConversation(a + b, localeTime)
      == FormatConversation(a, localeTime) + Separator + FormatConversation(b, localeTime)
  {
    assert Segments(a + b, localeTime) == Segments(a, localeTime) + Segments(b, localeTime);
    JoinAppend(Segments(a, localeTime), Segments(b, localeTime), Separator);
  }

  /** An empty selection formats to ""; one message is its line alone. */
  lemma FormatSmall(msgs: seq<Message>, localeTime: string -> string)
    ensures |msgs| == 0 ==> FormatConversation(msgs, localeTime) == ""
    ensures |msgs| == 1 ==> FormatConversation(msgs, localeTime) == Segment(msgs[0], localeTime)
  {
  }

  /** Every part appears in the joined string. */
  lemma {:induction false} JoinContains(parts: seq<string>, sep: string, i: nat)
    requires i < |parts|
    ensures Includes(Join(parts, sep), parts[i])
    decreases |parts|
  {
    if |parts| == 1 || i == 0 {
      var p := parts[0];
      assert StartsWith(p, p) by {
        assert p[..|p|] == p;
      }
      if |parts| > 1 {
        IncludesInfix("", p, sep + Join(parts[1..], sep), p);
        assert Join(parts, sep) == "" + p + (sep + Join(parts[1..], sep));
      }
    } else {
      JoinContains(parts[1..], sep, i - 1);
      IncludesInfix(parts[0] + sep, Join(parts[1..], sep), "", parts[i]);
      assert Join(parts, sep) == parts[0] + sep + Join(parts[1..], sep) + "";
    }
  }

  /** Every selected message's line appears in the transcript. */
  lemma FormatContainsEveryMessage(msgs: seq<Message>, localeTime: string -> string, i: nat)
    requires i < |msgs|
    ensures Includes(FormatConversation(msgs, localeTime), Segment(msgs[i], localeTime))
  {
    JoinContains(Segments(msgs, localeTime), Separator, i);
  }

  // ---------------------------------------------------------------------------
  // Panel state, the export gate and the request
  // ---------------------------------------------------------------------------

  /** The component's state. `caseUrl` holds whatever truthy value the extraction found. */
  datatype PanelState = PanelState(
    isExporting: bool,
    ticketTitle: string,
    manager: string,
    contact: string,
    caseUrl: Option<Json>,
    lastResponse: Option<Json>)

  const Initial: PanelState := PanelState(false, "", "", "", None, None)

  datatype Toast = Toast(title: string, description: string, destructive: bool)

  const NoMessagesToast: Toast :=
    Toast("No Messages Selected", "Please select at least one message to export.", true)
  const MissingInfoToast: Toast :=
    Toast("Missing Information", "Please fill in both Manager (Handläggare) and Contact (Anmälare) fields.", true)

  /** The body POSTed to the case endpoint. */
  datatype CaseRequest = CaseRequest(
    title: string,
    description: string,
    manager: string,
    contact: string,
    messages: seq<Message>,
    teamsContext: Option<Json>)

  /** The gate's decision: a toast and nothing sent, or the request to send. */
  datatype Start = Rejected(toast: Toast) | Send(request: CaseRequest)

  /** The payload of `exportToServiceDesk`: the typed title, or one generated from the
      first message, and the whole transcript. */
  function BuildRequest(msgs: seq<Message>, st: PanelState, localeTime: string -> string): CaseRequest
    requires |msgs| > 0
  {
    CaseRequest(
      if st.ticketTitle != "" then st.ticketTitle else GenerateTitle(msgs[0].content),
      FormatConversation(msgs, localeTime),
      st.manager,
      st.contact,
      msgs,
      msgs[0].teamsContext)
  }

  /** The checks at the top of `exportToServiceDesk`. */
  function Gate(msgs: seq<Message>, st: PanelState, localeTime: string -> string): Start {
    if |msgs| == 0 then Rejected(NoMessagesToast)
    else if st.manager == "" || st.contact == "" then Rejected(MissingInfoToast)
    else Send(BuildRequest(msgs, st, localeTime))
  }

  /** `canExport`, which enables the button. */
  predicate CanExport(msgs: seq<Message>, st: PanelState) {
    |msgs| > 0 && !st.isExporting && st.manager != "" && st.contact != ""
  }

  /** The hint under a disabled, idle button. */
  function Hint(msgs: seq<Message>, st: PanelState): Option<string> {
    if CanExport(msgs, st) || st.isExporting then None
    else if |msgs| == 0 then Some("No messages selected")
    else if st.manager == "" || st.contact == "" then Some("Please fill in required fields (Manager and Contact)")
    else Some("")
  }

  /** Nothing is sent without a selection or with an empty manager or contact; otherwise
      the request is sent. When idle, that is exactly when the button is enabled, and
      the gate does not look at `isExporting` itself. */
  lemma GateIffCanExport(msgs: seq<Message>, st: PanelState, localeTime: string -> string)
    ensures Gate(msgs, st, localeTime).Send? <==> |msgs| > 0 && st.manager != "" && st.contact != ""
    ensures !st.isExporting ==> (Gate(msgs, st, localeTime).Send? <==> CanExport(msgs, st))
    ensures Gate(msgs, st, localeTime) == Gate(msgs, st.(isExporting := !st.isExporting), localeTime)
    ensures |msgs| == 0 ==> Gate(msgs, st, localeTime) == Rejected(NoMessagesToast)
    ensures |msgs| > 0 && (st.manager == "" || st.contact == "") ==> Gate(msgs, st, localeTime) == Rejected(MissingInfoToast)
  {
  }

  /** The hint is shown exactly when an idle panel would refuse to send, and names the
      same reason as the toast the gate would raise. */
  lemma HintMatchesGate(msgs: seq<Message>, st: PanelState, localeTime: string -> string)
    requires !st.isExporting
    ensures Hint(msgs, st).Some? <==> Gate(msgs, st, localeTime).Rejected?
    ensures Gate(msgs, st, localeTime) == Rejected(NoMessagesToast) <==> Hint(msgs, st) == Some("No messages selected")
  {
  }

  /** The request carries the user's title when there is one, else the title generated
      from the first message, and the transcript of the whole selection. */
  lemma RequestContents(msgs: seq<Message>, st: PanelState, localeTime: string -> string)
    requires Gate(msgs, st, localeTime).Send?
    ensures var r := Gate(msgs, st, localeTime).request;
      && (st.ticketTitle != "" ==> r.title == st.ticketTitle)
      && (st.ticketTitle == "" ==> r.title == GenerateTitle(msgs[0].content))
      && r.description == FormatConversation(msgs, localeTime)
      && r.manager == st.manager && r.manager != ""
      && r.contact == st.contact && r.contact != ""
      && r.messages == msgs
  {
  }

  // ---------------------------------------------------------------------------
  // The answer
  // ---------------------------------------------------------------------------

  /** `response.json()` either parses or rejects with a message. */
  datatype ParsedBody = Parsed(value: Json) | Unparsable(message: string)

  /** `response.text()` either yields the body or rejects with a message. */
  datatype BodyText = Readable(value: string) | Unreadable(message: string)

  /** The outcome of the `fetch`: a rejection, or a status with the body as text and as
      parsed JSON. */
  datatype ApiAnswer =
    | FetchRejected(message: string)
    | Replied(status: nat, text: BodyText, json: ParsedBody)

  /** The URL extraction's result: the truthy value found (or none), or the message of
      the TypeError it raised. */
  datatype Extraction = Found(url: Option<Json>) | Threw(message: string)

  const SelfServiceKey: string := "URL_Selfservice"

  /** `returnValues.find(item => item.name === "URL_Selfservice")` followed by
      `urlObject?.content`: the first entry named so decides; a `null` entry met before it
      makes the property read throw. */
  function FindSelfService(items: seq<Json>): Extraction
    decreases |items|
  {
    if |items| == 0 then Found(None)
    else if items[0].JNull? then Threw(ReadPropertyError(true, "name"))
    else if Prop(items[0], "name") == Some(JStr(SelfServiceKey)) then
      var content := Prop(items[0], "content");
      Found(if JsonTruthy(content) then content else None)
    else FindSelfService(items[1..])
  }

  /** `data.importItemResult?.[0]?.returnValues?.returnValue`. */
  function NestedList(data: Json): Option<Json> {
    PropOpt(PropOpt(Index0Opt(Prop(data, "importItemResult")), "returnValues"), "returnValue")
  }

  /** The case-URL extraction: the nested list when it is there (no fall-through when it
      has no such entry), else a top-level `URL_Selfservice`, else `caseUrl`, else none.
      A `null` body, or a nested value that is not an array, raises a TypeError. */
  function ExtractUrl(data: Json): Extraction {
    if data.JNull? then Threw(ReadPropertyError(true, "importItemResult"))
    else
      var nested := NestedList(data);
      if JsonTruthy(nested) then
        match nested.value
        case JArr(items) => FindSelfService(items)
        case _ => Threw("returnValues.find is not a function")
      else if JsonTruthy(Prop(data, SelfServiceKey)) then Found(Prop(data, SelfServiceKey))
      else if JsonTruthy(Prop(data, "caseUrl")) then Found(Prop(data, "caseUrl"))
      else Found(None)
  }

  const NetworkErrorText: string := "Network error. Please check your connection and try again."
  const CreatedWithLink: string := "Your service desk case has been created. You can view it using the link below."
  const CreatedNoLink: string := "Your service desk case has been created in the system."

  /** The error toast's text: any message mentioning "fetch" is reported as a network
      error, any other is shown as it is. */
  function ErrorDescription(message: string): string {
    if Includes(message, "fetch") then NetworkErrorText else message
  }

  function ErrorToast(message: string): Toast {
    Toast("Export Failed", ErrorDescription(message), true)
  }

  function SuccessToast(url: Option<Json>): Toast {
    Toast("🎉 Case Created Successfully!", if url.Some? then CreatedWithLink else CreatedNoLink, false)
  }

  /** The message of the Error thrown for a non-2xx answer. */
  function ServerErrorMessage(status: nat, text: string): string {
    "Server responded with " + NatToString(status) + ": " + text
  }

  /** What one press of the button leaves behind: the state after the `finally` block,
      the toast raised, and the request sent, if any. */
  datatype ExportResult = ExportResult(state: PanelState, toast: Toast, sent: Option<CaseRequest>)

  /** `exportToServiceDesk`, from the press to the end of the `finally` block. */
  function Export(msgs: seq<Message>, st: PanelState, localeTime: string -> string, answer: ApiAnswer): ExportResult {
    match Gate(msgs, st, localeTime)
    case Rejected(t) => ExportResult(st, t, None)
    case Send(req) =>
      // isExporting is set, and the previous URL cleared, before the request
      var busy := st.(isExporting := true, caseUrl := None);
      var done := busy.(isExporting := false);
      match answer
      case FetchRejected(m) => ExportResult(done, ErrorToast(m), Some(req))
      case Replied(status, text, json) =>
        if !(200 <= status < 300) then
          match text
          case Unreadable(m) => ExportResult(done, ErrorToast(m), Some(req))
          case Readable(t) => ExportResult(done, ErrorToast(ServerErrorMessage(status, t)), Some(req))
        else
          match json
          case Unparsable(m) => ExportResult(done, ErrorToast(m), Some(req))
          case Parsed(data) =>
            var withData := done.(lastResponse := Some(data));
            match ExtractUrl(data)
            case Threw(m) => ExportResult(withData, ErrorToast(m), Some(req))
            case Found(url) =>
              ExportResult(withData.(caseUrl := url, ticketTitle := ""), SuccessToast(url), Some(req))
  }

  /** The priority of the URL sources: with the nested list present, only its entries
      count; without it, a top-level `URL_Selfservice`, then `caseUrl`. */
  lemma UrlPriority(data: Json)
    requires !data.JNull?
    ensures !JsonTruthy(NestedList(data)) && JsonTruthy(Prop(data, SelfServiceKey)) ==>
      ExtractUrl(data) == Found(Prop(data, SelfServiceKey))
    ensures !JsonTruthy(NestedList(data)) && !JsonTruthy(Prop(data, SelfServiceKey)) && JsonTruthy(Prop(data, "caseUrl")) ==>
      ExtractUrl(data) == Found(Prop(data, "caseUrl"))
    ensures !JsonTruthy(NestedList(data)) && !JsonTruthy(Prop(data, SelfServiceKey)) && !JsonTruthy(Prop(data, "caseUrl")) ==>
      ExtractUrl(data) == Found(None)
    ensures JsonTruthy(NestedList(data)) && NestedList(data).value.JArr? ==>
      ExtractUrl(data) == FindSelfService(NestedList(data).value.items)
  {
  }

  /** The nested list is searched for the first entry named `URL_Selfservice`; its
      `content`, when truthy, is the URL. A list with no such entry and no `null` entries
      yields no URL, whatever the top level holds. */
  lemma {:induction false} FindSelfServiceSpec(items: seq<Json>, i: nat)
    requires i < |items|
    requires forall j :: 0 <= j < i ==> !items[j].JNull? && Prop(items[j], "name") != Some(JStr(SelfServiceKey))
    requires !items[i].JNull? && Prop(items[i], "name") == Some(JStr(SelfServiceKey))
    ensures FindSelfService(items) == Found(if JsonTruthy(Prop(items[i], "content")) then Prop(items[i], "content") else None)
    decreases i
  {
    if i > 0 {
      assert !items[0].JNull? && Prop(items[0], "name") != Some(JStr(SelfServiceKey));
      var rest := items[1..];
      assert rest[i - 1] == items[i];
      forall j | 0 <= j < i - 1
        ensures !rest[j].JNull? && Prop(rest[j], "name") != Some(JStr(SelfServiceKey))
      {
        assert rest[j] == items[j + 1];
      }
      FindSelfServiceSpec(rest, i - 1);
    }
  }

  lemma {:induction false} NoEntryNoUrl(items: seq<Json>)
    requires forall j :: 0 <= j < |items| ==> !items[j].JNull? && Prop(items[j], "name") != Some(JStr(SelfServiceKey))
    ensures FindSelfService(items) == Found(None)
    decreases |items|
  {
    if |items| > 0 {
      NoEntryNoUrl(items[1..]);
    }
  }

  /** Every found URL is a truthy value. */
  lemma {:induction false} FoundUrlIsTruthy(items: seq<Json>)
    ensures FindSelfService(items).Found? && FindSelfService(items).url.Some? ==> JsonTruthy(FindSelfService(items).url)
    decreases |items|
  {
    if |items| > 0 {
      FoundUrlIsTruthy(items[1..]);
    }
  }

  /** A request is sent exactly when the gate lets it through. Afterwards the panel is
      idle again; only a parsed 2xx answer whose URL extraction succeeds clears the title
      and shows a success toast, and the URL shown is the extracted one. */
  lemma ExportOutcome(msgs: seq<Message>, st: PanelState, localeTime: string -> string, answer: ApiAnswer)
    ensures var r := Export(msgs, st, localeTime, answer);
      && (r.sent.Some? <==> Gate(msgs, st, localeTime).Send?)
      && (r.sent.Some? ==> r.sent.value == Gate(msgs, st, localeTime).request && !r.state.isExporting)
      && (r.sent.None? ==> r.state == st && r.toast == Gate(msgs, st, localeTime).toast)
      && (!r.toast.destructive <==>
            && r.sent.Some?
            && answer.Replied? && 200 <= answer.status < 300 && answer.json.Parsed?
            && ExtractUrl(answer.json.value).Found?)
      && (!r.toast.destructive ==> r.state.ticketTitle == "" && r.state.caseUrl == ExtractUrl(answer.json.value).url)
      && (r.toast.destructive && r.sent.Some? ==> r.state.caseUrl.None? && r.state.ticketTitle == st.ticketTitle)
  {
  }

  /** A non-2xx answer is reported with its status and body, unless the body mentions
      "fetch", in which case it is reported as a network error. */
  lemma ServerErrorReported(msgs: seq<Message>, st: PanelState, localeTime: string -> string, status: nat, text: string, json: ParsedBody)
    requires Gate(msgs, st, localeTime).Send? && !(200 <= status < 300)
    ensures !Includes(text, "fetch") ==>
      Export(msgs, st, localeTime, Replied(status, Readable(text), json)).toast.description == ServerErrorMessage(status, text)
    ensures Includes(text, "fetch") ==>
      Export(msgs, st, localeTime, Replied(status, Readable(text), json)).toast.description == NetworkErrorText
  {
    if Includes(text, "fetch") {
      IncludesInfix("Server responded with " + NatToString(status) + ": ", text, "", "fetch");
      assert ServerErrorMessage(status, text) == "Server responded with " + NatToString(status) + ": " + text + "";
    } else {
      NoFetchInServerMessage(status, text);
    }
  }

  /** When the body of a non-2xx answer cannot be read, the toast describes the read's
      own failure and the status is not shown. */
  lemma UnreadableErrorReported(msgs: seq<Message>, st: PanelState, localeTime: string -> string, status: nat, m: string, json: ParsedBody)
    requires Gate(msgs, st, localeTime).Send? && !(200 <= status < 300)
    ensures Export(msgs, st, localeTime, Replied(status, Unreadable(m), json)).toast == ErrorToast(m)
    ensures Export(msgs, st, localeTime, Replied(status, Unreadable(m), json)).sent.Some?
  {
  }

  /** The fixed words of the server-error message hold no 'f' and the status is digits,
      so "fetch" can only occur in the message if it occurs in the body. */
  lemma NoFetchInServerMessage(status: nat, text: string)
    requires !Includes(text, "fetch")
    ensures !Includes(ServerErrorMessage(status, text), "fetch")
  {
    var m := ServerErrorMessage(status, text);
    if Includes(m, "fetch") {
      var i := IncludesOccurs(m, "fetch");
      var pre := "Server responded with ";
      var d := NatToString(status);
      var head := pre + d + ": ";
      assert m == head + text;
      assert m[i] == 'f' by {
        assert m[i..i + 5] == "fetch";
      }
      if i >= |head| {
        var j := i - |head|;
        assert text[j..j + 5] == m[i..i + 5];
        OccursIncludes(text, "fetch", j);
      }
    }
  }

  // ---------------------------------------------------------------------------
  // The auto-populate effect
  // ---------------------------------------------------------------------------

  const PlaceholderContact: string := "Teams User"

  /** The effect that runs whenever the selection or the title changes: the first
      message's manager e-mail, else its manager name, becomes the manager; its contact
      e-mail, else its contact name unless that is the placeholder "Teams User", becomes
      the contact; a title is generated only while the title is empty and the content is
      not. Whatever has no source keeps its current value. */
  function AutoPopulate(msgs: seq<Message>, st: PanelState): PanelState {
    if |msgs| == 0 then st
    else
      var m := msgs[0];
      var manager :=
        if Truthy(m.managerEmail) then m.managerEmail.value
        else if Truthy(m.managerName) then m.managerName.value
        else st.manager;
      var contact :=
        if Truthy(m.contactEmail) then m.contactEmail.value
        else if Truthy(m.contactName) && m.contactName.value != PlaceholderContact then m.contactName.value
        else st.contact;
      var title := if st.ticketTitle == "" && m.content != "" then GenerateTitle(m.content) else st.ticketTitle;
      st.(manager := manager, contact := contact, ticketTitle := title)
  }

  /** The effect touches only the manager, contact and title; an empty selection leaves
      everything as it is. A title the user has typed is never replaced, and the contact
      never becomes the placeholder unless the e-mail says so or it already was. */
  lemma AutoPopulateFields(msgs: seq<Message>, st: PanelState)
    ensures var r := AutoPopulate(msgs, st);
      && r.isExporting == st.isExporting && r.caseUrl == st.caseUrl && r.lastResponse == st.lastResponse
      && (|msgs| == 0 ==> r == st)
      && (st.ticketTitle != "" ==> r.ticketTitle == st.ticketTitle)
      && (r.contact == PlaceholderContact ==>
            st.contact == PlaceholderContact || (|msgs| > 0 && msgs[0].contactEmail == Some(PlaceholderContact)))
  {
  }

  /** Which source fills the manager and the contact, in order of preference. */
  lemma AutoPopulatePriority(msgs: seq<Message>, st: PanelState)
    requires |msgs| > 0
    ensures var m := msgs[0]; var r := AutoPopulate(msgs, st);
      && (Truthy(m.managerEmail) ==> r.manager == m.managerEmail.value)
      && (!Truthy(m.managerEmail) && Truthy(m.managerName) ==> r.manager == m.managerName.value)
      && (!Truthy(m.managerEmail) && !Truthy(m.managerName) ==> r.manager == st.manager)
      && (Truthy(m.contactEmail) ==> r.contact == m.contactEmail.value)
      && (!Truthy(m.contactEmail) && Truthy(m.contactName) && m.contactName.value != PlaceholderContact ==>
            r.contact == m.contactName.value)
      && (!Truthy(m.contactEmail) && (!Truthy(m.contactName) || m.contactName.value == PlaceholderContact) ==>
            r.contact == st.contact)
      && (st.ticketTitle == "" && m.content != "" ==> r.ticketTitle == GenerateTitle(m.content))
  {
  }

  /** Running the effect again on its own result changes nothing, so the re-run that the
      title change triggers settles at once. */
  lemma AutoPopulateIdempotent(msgs: seq<Message>, st: PanelState)
    ensures AutoPopulate(msgs, AutoPopulate(msgs, st)) == AutoPopulate(msgs, st)
  {
  }

  /** Because the effect also runs when the title changes, editing the title puts the
      message's manager and contact back over whatever the user typed into those fields. */
  lemma TitleEditRestoresPeople(msgs: seq<Message>, st: PanelState, edited: string)
    requires |msgs| > 0 && Truthy(msgs[0].managerEmail) && Truthy(msgs[0].contactEmail)
    ensures var r := AutoPopulate(msgs, st.(ticketTitle := edited));
      && r.manager == msgs[0].managerEmail.value
      && r.contact == msgs[0].contactEmail.value
      && (edited != "" ==> r.ticketTitle == edited)
  {
  }

  /** A message that names its manager and a real contact enables the export without any
      typing. */
  lemma PopulatedMessageCanExport(msgs: seq<Message>, st: PanelState)
    requires |msgs| > 0 && !st.isExporting
    requires Truthy(msgs[0].managerEmail) || Truthy(msgs[0].managerName)
    requires Truthy(msgs[0].contactEmail) || (Truthy(msgs[0].contactName) && msgs[0].contactName.value != PlaceholderContact)
    ensures CanExport(msgs, AutoPopulate(msgs, st))
  {
  }

  /** After a successful export clears the title, the effect generates it again from the
      first message; manager and contact are kept. */
  lemma SuccessRegeneratesTitle(msgs: seq<Message>, st: PanelState, localeTime: string -> string, answer: ApiAnswer)
    requires !Export(msgs, st, localeTime, answer).toast.destructive
    ensures var after := AutoPopulate(msgs, Export(msgs, st, localeTime, answer).state);
      && |msgs| > 0
      && after.ticketTitle == (if msgs[0].content != "" then GenerateTitle(msgs[0].content) else "")
      && !after.isExporting
  {
    ExportOutcome(msgs, st, localeTime, answer);
  }
}
