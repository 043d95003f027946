/** `api/create-case/index.js`: the HTTP proxy that forwards a case to the service-desk
    REST API with Basic authentication and relays its answer.

    The process environment, and the upstream API's answer to the one request the proxy
    makes, are inputs. */
module CreateCase {
  import opened Js
  import opened Http
  import BasicAuth

  const PreflightHeaders: map<string, string> := map[
    "Access-Control-Allow-Origin" := "*",
    "Access-Control-Allow-Methods" := "GET, POST, PUT, DELETE, OPTIONS",
    "Access-Control-Allow-Headers" := "Content-Type, Authorization",
    "Access-Control-Max-Age" := "86400"]

  /** The headers of every non-preflight answer, success or failure. */
  const ResultHeaders: map<string, string> := map[
    "Content-Type" := "application/json",
    "Access-Control-Allow-Origin" := "*"]

  const FailureText: string := "Failed to create service desk case"
  const ConfigMissing: string := "Service desk API configuration missing"
  const TitleNotString: string := "title?.substring is not a function"

  /** The four environment variables read per request. */
  datatype Env = Env(
    endpoint: Option<string>,    // SERVICE_DESK_ENDPOINT
    username: Option<string>,    // SERVICE_DESK_USERNAME
    password: Option<string>,    // SERVICE_DESK_PASSWORD
    identifier: Option<string>)  // SERVICE_DESK_IDENTIFIER

  /** `response.json()` either parses or rejects. */
  datatype UpstreamJson = Parsed(value: Json) | NotJson(error: JsError)

  /** `response.text()` either yields the body or rejects (say, the connection drops
      while the body streams in). */
  datatype UpstreamText = TextRead(value: string) | TextRejected(error: JsError)

  /** What `fetch` yields: a rejection (network failure), or a status with the body both
      as text and as parsed JSON (only the one the handler reads matters). */
  datatype Upstream =
    | FetchFailed(error: JsError)
    | Answered(status: nat, text: UpstreamText, json: UpstreamJson)

  /** The single upstream request: a POST of `payload` as JSON to `url`. */
  datatype UpstreamCall = UpstreamCall(url: string, authorization: string, payload: Json)

  /** The handler's answer and the upstream request it made, if any. */
  datatype Outcome = Outcome(response: Response, call: Option<UpstreamCall>)

  /** `response.ok`. */
  predicate Ok(status: nat) {
    200 <= status < 300
  }

  /** The catch block's answer: a fixed error and the thrown message. */
  function Failure(message: Option<string>): Response {
    Response(500, ResultHeaders, JsonBody(Object([("error", Some(JStr(FailureText))), ("message", StrOpt(message))])))
  }

  /** The TypeError of `const { title, ... } = req.body` on a missing body. */
  function DestructureError(ofNull: bool): string {
    "Cannot destructure property 'title' of 'req.body' as it is " + (if ofNull then "null" else "undefined") + "."
  }

  /** `title?.substring(0, 50)` in the log line: fine for a string, `null` or `undefined`,
      a TypeError for any other value. */
  predicate TitleLoggable(title: Option<Json>) {
    title.None? || title.value.JNull? || title.value.JStr?
  }

  /** The upstream payload: the four case fields as received (absent ones left out) and
      three fixed classification fields. The conversation messages are not forwarded. */
  function Payload(body: Json): Json {
    Object(PayloadEntries(body))
  }

  function PayloadEntries(body: Json): seq<(string, Option<Json>)> {
    [
      ("title", Prop(body, "title")),
      ("description", Prop(body, "description")),
      ("manager", Prop(body, "manager")),
      ("contact", Prop(body, "contact")),
      ("source", Some(JStr("Microsoft Teams"))),
      ("priority", Some(JStr("Normal"))),
      ("category", Some(JStr("IT Support")))]
  }

  /** `serviceUsername + serviceIdentifier`: an unset identifier is concatenated as the
      word "undefined". */
  function AuthPassword(username: string, identifier: Option<string>): string {
    username + Template(identifier)
  }

  /** The message thrown for a non-2xx upstream status. */
  function UpstreamErrorMessage(status: nat, text: string): string {
    "Service desk API error: " + NatToString(status) + " - " + Substring(text, 0, 200)
  }

  /** The exported handler. */
  function Handle(req: Request, env: Env, upstream: Upstream): Outcome {
    if req.httpMethod == "OPTIONS" then Outcome(Response(200, PreflightHeaders, NoBody), None)
    else if req.body.None? || req.body.value.JNull? then
      Outcome(Failure(Some(DestructureError(req.body.Some?))), None)
    else
      var body := req.body.value;
      if !TitleLoggable(Prop(body, "title")) then Outcome(Failure(Some(TitleNotString)), None)
      else if !Truthy(env.endpoint) || !Truthy(env.username) || !Truthy(env.password) then
        Outcome(Failure(Some(ConfigMissing)), None)
      else
        var user := env.username.value;
        var call := UpstreamCall(env.endpoint.value, BasicAuth.Header(user, AuthPassword(user, env.identifier)), Payload(body));
        var response :=
          match upstream
          case FetchFailed(e) => Failure(e.message)
          case Answered(status, text, json) =>
            if !Ok(status) then
              match text
              case TextRejected(e) => Failure(e.message)
              case TextRead(t) => Failure(Some(UpstreamErrorMessage(status, t)))
            else
              match json
              case NotJson(e) => Failure(e.message)
              case Parsed(v) => Response(200, ResultHeaders, JsonBody(v));
        Outcome(response, Some(call))
  }

  /** A preflight is answered with the CORS headers and nothing else happens. */
  lemma Preflight(req: Request, env: Env, upstream: Upstream)
    requires req.httpMethod == "OPTIONS"
    ensures Handle(req, env, upstream) == Outcome(Response(200, PreflightHeaders, NoBody), None)
  {
  }

  /** Without a request the upstream answer is irrelevant: whenever no upstream call is
      made, the outcome is the same for every upstream behaviour. */
  lemma NoCallNoDependence(req: Request, env: Env, u1: Upstream, u2: Upstream)
    requires Handle(req, env, u1).call.None?
    ensures Handle(req, env, u1) == Handle(req, env, u2)
  {
  }

  /** The configuration gate: for a request with a body, the upstream call is made exactly
      when the endpoint, username and password are all set and non-empty (and the title is
      a string or absent); the identifier is not checked. A missing setting is reported as
      a configuration failure. */
  lemma ConfigurationGate(req: Request, env: Env, upstream: Upstream)
    requires req.httpMethod != "OPTIONS" && req.body.Some? && !req.body.value.JNull?
    requires TitleLoggable(Prop(req.body.value, "title"))
    ensures Handle(req, env, upstream).call.Some? <==>
      Truthy(env.endpoint) && Truthy(env.username) && Truthy(env.password)
    ensures !(Truthy(env.endpoint) && Truthy(env.username) && Truthy(env.password)) ==>
      Handle(req, env, upstream).response == Failure(Some(ConfigMissing))
  {
  }

  /** The upstream request goes to the configured endpoint with the received case fields,
      and its Basic credentials are the username and the username followed by the
      identifier, which a receiver can read back when the username has no colon. */
  lemma CallContents(req: Request, env: Env, upstream: Upstream)
    requires Handle(req, env, upstream).call.Some?
    ensures req.body.Some? && env.endpoint.Some? && env.username.Some?
    ensures var c := Handle(req, env, upstream).call.value;
      && c.url == env.endpoint.value
      && c.payload == Payload(req.body.value)
      && c.authorization == BasicAuth.Header(env.username.value, env.username.value + Template(env.identifier))
    ensures ':' !in env.username.value ==>
      BasicAuth.Parse(Handle(req, env, upstream).call.value.authorization)
        == Some((env.username.value, env.username.value + Template(env.identifier)))
  {
    if ':' !in env.username.value {
      BasicAuth.RoundTrip(env.username.value, AuthPassword(env.username.value, env.identifier));
    }
  }

  /** An unset identifier is not an error: the password becomes the username followed by
      the word "undefined". */
  lemma UnsetIdentifier(req: Request, env: Env, upstream: Upstream)
    requires Handle(req, env, upstream).call.Some? && env.identifier.None?
    ensures Handle(req, env, upstream).call.value.authorization
      == BasicAuth.Header(env.username.value, env.username.value + "undefined")
  {
  }

  /** The payload carries the received title, description, manager and contact (each only
      if present), the three fixed classification fields, and nothing else. */
  lemma PayloadFields(body: Json)
    ensures Payload(body).JObj?
    ensures var f := Payload(body).fields;
      && (forall k :: k in f ==> k in {"title", "description", "manager", "contact", "source", "priority", "category"})
      && "source" in f && f["source"] == JStr("Microsoft Teams")
      && "priority" in f && f["priority"] == JStr("Normal")
      && "category" in f && f["category"] == JStr("IT Support")
      && ("title" in f <==> Prop(body, "title").Some?)
      && ("title" in f ==> Some(f["title"]) == Prop(body, "title"))
      && ("description" in f <==> Prop(body, "description").Some?)
      && ("description" in f ==> Some(f["description"]) == Prop(body, "description"))
      && ("manager" in f <==> Prop(body, "manager").Some?)
      && ("manager" in f ==> Some(f["manager"]) == Prop(body, "manager"))
      && ("contact" in f <==> Prop(body, "contact").Some?)
      && ("contact" in f ==> Some(f["contact"]) == Prop(body, "contact"))
  {
    PayloadDomain(body);
    PayloadFixed(body);
    PayloadReceived(body);
  }

  lemma PayloadDomain(body: Json)
    ensures forall k :: k in Payload(body).fields ==>
      k in {"title", "description", "manager", "contact", "source", "priority", "category"}
  {
    var e := PayloadEntries(body);
    forall k | k in Payload(body).fields
      ensures k in {"title", "description", "manager", "contact", "source", "priority", "category"}
    {
      var i :| 0 <= i < |e| && e[i].0 == k;
      if i == 0 { assert k == "title"; }
      else if i == 1 { assert k == "description"; }
      else if i == 2 { assert k == "manager"; }
      else if i == 3 { assert k == "contact"; }
      else if i == 4 { assert k == "source"; }
      else if i == 5 { assert k == "priority"; }
      else { assert k == "category"; }
    }
  }

  lemma PayloadFixed(body: Json)
    ensures var f := Payload(body).fields;
      && "source" in f && f["source"] == JStr("Microsoft Teams")
      && "priority" in f && f["priority"] == JStr("Normal")
      && "category" in f && f["category"] == JStr("IT Support")
  {
    PayloadKeysDistinct(body);
    PayloadField(body, 4);
    PayloadField(body, 5);
    PayloadField(body, 6);
  }

  lemma PayloadReceived(body: Json)
    ensures var f := Payload(body).fields;
      && ("title" in f <==> Prop(body, "title").Some?)
      && ("title" in f ==> Some(f["title"]) == Prop(body, "title"))
      && ("description" in f <==> Prop(body, "description").Some?)
      && ("description" in f ==> Some(f["description"]) == Prop(body, "description"))
      && ("manager" in f <==> Prop(body, "manager").Some?)
      && ("manager" in f ==> Some(f["manager"]) == Prop(body, "manager"))
      && ("contact" in f <==> Prop(body, "contact").Some?)
      && ("contact" in f ==> Some(f["contact"]) == Prop(body, "contact"))
  {
    PayloadKeysDistinct(body);
    PayloadField(body, 0);
    PayloadField(body, 1);
    PayloadField(body, 2);
    PayloadField(body, 3);
  }

  /** The seven payload keys are pairwise different. */
  lemma PayloadKeysDistinct(body: Json)
    ensures forall i, j :: 0 <= i < j < 7 ==> PayloadEntries(body)[i].0 != PayloadEntries(body)[j].0
  {
    var e := PayloadEntries(body);
    assert e[0].0[0] == 't' && e[1].0[0] == 'd' && e[2].0[0] == 'm' && e[3].0[0] == 'c';
    assert e[4].0[0] == 's' && e[5].0[0] == 'p' && e[6].0[0] == 'c' && e[3].0[1] != e[6].0[1];
  }

  /** The `i`-th payload entry is a field of the payload exactly when it has a value,
      and then with that value. */
  lemma PayloadField(body: Json, i: nat)
    requires i < 7
    requires forall i, j :: 0 <= i < j < 7 ==> PayloadEntries(body)[i].0 != PayloadEntries(body)[j].0
    ensures var e := PayloadEntries(body)[i];
      && (e.0 in Payload(body).fields <==> e.1.Some?)
      && (e.1.Some? ==> Payload(body).fields[e.0] == e.1.value)
  {
    var e := PayloadEntries(body);
    forall j | 0 <= j < |e| && j != i
      ensures e[j].0 != e[i].0
    {
      if j < i {
        assert e[j].0 != e[i].0;
      } else {
        assert e[i].0 != e[j].0;
      }
    }
    ObjectField(e, i);
  }

  /** A non-2xx upstream status fails the request with a message naming the status and
      quoting the start of the upstream body; a body of at most 200 characters is quoted
      whole. */
  lemma UpstreamRejection(req: Request, env: Env, status: nat, text: string, json: UpstreamJson)
    requires Handle(req, env, Answered(status, TextRead(text), json)).call.Some?
    requires !Ok(status)
    ensures Handle(req, env, Answered(status, TextRead(text), json)).response == Failure(Some(UpstreamErrorMessage(status, text)))
    ensures Includes(UpstreamErrorMessage(status, text), NatToString(status))
    ensures |text| <= 200 ==> Includes(UpstreamErrorMessage(status, text), text)
    ensures |Substring(text, 0, 200)| <= 200
  {
    var m := UpstreamErrorMessage(status, text);
    IncludesInfix("Service desk API error: ", NatToString(status), " - " + Substring(text, 0, 200), NatToString(status));
    assert m == "Service desk API error: " + NatToString(status) + (" - " + Substring(text, 0, 200));
    PrefixSubstring(text, 200);
    if |text| <= 200 {
      IncludesInfix("Service desk API error: " + NatToString(status) + " - ", text, "", text);
      assert m == "Service desk API error: " + NatToString(status) + " - " + text + "";
    }
  }

  /** When the body of a non-2xx answer cannot be read, the request fails with the
      read's own error message, and the status is not reported. */
  lemma UnreadableRejection(req: Request, env: Env, status: nat, e: JsError, json: UpstreamJson)
    requires Handle(req, env, Answered(status, TextRejected(e), json)).call.Some?
    requires !Ok(status)
    ensures Handle(req, env, Answered(status, TextRejected(e), json)).response == Failure(e.message)
  {
  }

  /** A 2xx upstream answer with a JSON body is relayed as a 200 with that body; its
      text is never read. */
  lemma UpstreamSuccess(req: Request, env: Env, status: nat, text: UpstreamText, v: Json)
    requires Handle(req, env, Answered(status, text, Parsed(v))).call.Some?
    requires Ok(status)
    ensures Handle(req, env, Answered(status, text, Parsed(v))).response == Response(200, ResultHeaders, JsonBody(v))
  {
  }

  /** The catch block's body: the fixed error text, and the message when there is one. */
  lemma FailureBody(message: Option<string>)
    ensures Failure(message).body.JsonBody? && Failure(message).body.value.JObj?
    ensures var f := Failure(message).body.value.fields;
      && "error" in f && f["error"] == JStr(FailureText)
      && ("message" in f <==> message.Some?)
      && (message.Some? ==> f["message"] == JStr(message.value))
  {
    var e := [("error", Some(JStr(FailureText))), ("message", StrOpt(message))];
    ObjectField(e, 0);
    ObjectField(e, 1);
  }

  /** Every answer is a 200 or a 500. A 500 always carries the fixed error text; a 200 to
      anything but a preflight means the upstream call was made and accepted. */
  lemma Outcomes(req: Request, env: Env, upstream: Upstream)
    ensures var o := Handle(req, env, upstream);
      && o.response.status in {200, 500}
      && (o.response.status == 500 ==>
            o.response.headers == ResultHeaders
            && o.response.body.JsonBody? && o.response.body.value.JObj?
            && "error" in o.response.body.value.fields
            && o.response.body.value.fields["error"] == JStr(FailureText))
      && (o.response.status == 200 && req.httpMethod != "OPTIONS" ==>
            o.call.Some? && upstream.Answered? && Ok(upstream.status) && upstream.json.Parsed?)
  {
    var o := Handle(req, env, upstream);
    if req.httpMethod == "OPTIONS" {
    } else if req.body.None? || req.body.value.JNull? {
      FailureOutcome(o.response, Some(DestructureError(req.body.Some?)));
    } else if !TitleLoggable(Prop(req.body.value, "title")) {
      FailureOutcome(o.response, Some(TitleNotString));
    } else if !Truthy(env.endpoint) || !Truthy(env.username) || !Truthy(env.password) {
      FailureOutcome(o.response, Some(ConfigMissing));
    } else {
      UpstreamOutcome(req, env, upstream);
    }
  }

  /** The answers of the upstream stage. */
  lemma UpstreamOutcome(req: Request, env: Env, upstream: Upstream)
    requires req.httpMethod != "OPTIONS" && req.body.Some? && !req.body.value.JNull?
    requires TitleLoggable(Prop(req.body.value, "title"))
    requires Truthy(env.endpoint) && Truthy(env.username) && Truthy(env.password)
    ensures var o := Handle(req, env, upstream);
      && o.call.Some?
      && o.response.status in {200, 500}
      && (o.response.status == 500 ==>
            o.response.headers == ResultHeaders
            && o.response.body.JsonBody? && o.response.body.value.JObj?
            && "error" in o.response.body.value.fields
            && o.response.body.value.fields["error"] == JStr(FailureText))
      && (o.response.status == 200 ==> upstream.Answered? && Ok(upstream.status) && upstream.json.Parsed?)
  {
    var o := Handle(req, env, upstream);
    match upstream
    case FetchFailed(e) =>
      FailureOutcome(o.response, e.message);
    case Answered(status, text, json) =>
      if !Ok(status) {
        match text
        case TextRejected(e) => FailureOutcome(o.response, e.message);
        case TextRead(t) => FailureOutcome(o.response, Some(UpstreamErrorMessage(status, t)));
      } else if json.NotJson? {
        FailureOutcome(o.response, json.error.message);
      }
  }

  /** A response built by `Failure` is a 500 carrying the fixed error text. */
  lemma FailureOutcome(response: Response, message: Option<string>)
    requires response == Failure(message)
    ensures response.status == 500 && response.headers == ResultHeaders
    ensures response.body.JsonBody? && response.body.value.JObj?
    ensures "error" in response.body.value.fields && response.body.value.fields["error"] == JStr(FailureText)
  {
    FailureBody(message);
  }
}
