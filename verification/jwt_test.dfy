/** `api/jwt-test/index.js`: a diagnostic endpoint that reports, with masked values,
    whether the Bot Framework credentials are configured. The environment and the clock
    are inputs. */
module JwtTest {
  import opened Js
  import opened Http

  const NotSet: string := "NOT SET"

  const CorsHeaders: map<string, string> := map[
    "Access-Control-Allow-Origin" := "*",
    "Access-Control-Allow-Methods" := "GET, POST, OPTIONS",
    "Access-Control-Allow-Headers" := "Content-Type"]

  /** The four credential variables. */
  datatype AppEnv = AppEnv(
    appId: Option<string>,        // MicrosoftAppId
    appPassword: Option<string>,  // MicrosoftAppPassword
    appType: Option<string>,      // MicrosoftAppType
    tenantId: Option<string>)     // MicrosoftAppTenantId

  /** The GET report: masked values and the time of the request. */
  datatype ConfigView = ConfigView(appId: string, appPassword: string, appType: string, tenantId: string, timestamp: string)

  /** The simulated inbound message of a POST (type "message", sender "test-bot",
      conversation "test-conv", channel "test"). */
  datatype TestMessage = TestMessage(text: Json, timestamp: string)

  datatype JwtBody =
    | NoContent
    | ConfigCheck(config: ConfigView)
    | MissingVariables(missing: seq<string>)
    | ConfigurationOk(received: TestMessage, appType: string)

  datatype JwtResponse = JwtResponse(status: nat, headers: map<string, string>, body: JwtBody)

  /** An identifier as the report shows it: its first eight characters and "...". */
  function Preview(v: Option<string>): string {
    if Truthy(v) then Substring(v.value, 0, 8) + "..." else NotSet
  }

  /** A secret as the report shows it: "***" and its last four characters (all of it
      when shorter). */
  function MaskSecret(v: Option<string>): string {
    if Truthy(v) then "***" + Substring(v.value, |v.value| - 4, |v.value|) else NotSet
  }

  /** The names of the unset or empty variables, in the fixed order of the checks. */
  function MissingVars(env: AppEnv): seq<string> {
    (if Truthy(env.appId) then [] else ["MicrosoftAppId"])
    + (if Truthy(env.appPassword) then [] else ["MicrosoftAppPassword"])
    + (if Truthy(env.appType) then [] else ["MicrosoftAppType"])
    + (if Truthy(env.tenantId) then [] else ["MicrosoftAppTenantId"])
  }

  /** The exported handler; `now` is `new Date().toISOString()`. */
  function Handle(req: Request, env: AppEnv, now: string): JwtResponse {
    if req.httpMethod == "OPTIONS" then JwtResponse(200, CorsHeaders, NoContent)
    else if req.httpMethod == "GET" then
      JwtResponse(200, JsonContentType, ConfigCheck(ConfigView(
        Preview(env.appId), MaskSecret(env.appPassword), Or(env.appType, NotSet), Preview(env.tenantId), now)))
    else
      var received := TestMessage(JsonOr(PropOpt(req.body, "text"), JStr("test")), now);
      var missing := MissingVars(env);
      if |missing| > 0 then JwtResponse(400, JsonContentType, MissingVariables(missing))
      else JwtResponse(200, JsonContentType, ConfigurationOk(received, env.appType.value))
  }

  /** The preview shows at most eight characters of the value, and they are its start. */
  lemma PreviewRevealsPrefix(v: string)
    requires v != ""
    ensures var r := Preview(Some(v));
      && |r| == (if |v| < 8 then |v| else 8) + 3
      && StartsWith(v, r[..|r| - 3])
      && r[|r| - 3..] == "..."
  {
  }

  /** The mask shows at most four characters of the secret, and they are its end. */
  lemma MaskRevealsSuffix(v: string)
    requires v != ""
    ensures var r := MaskSecret(Some(v));
      && r[..3] == "***"
      && |r| - 3 == (if |v| < 4 then |v| else 4)
      && r[3..] == v[|v| - (|r| - 3)..]
  {
  }

  /** A variable is reported missing exactly when it is unset or empty; the report keeps
      the order AppId, AppPassword, AppType, TenantId. */
  lemma MissingVarsExact(env: AppEnv)
    ensures ("MicrosoftAppId" in MissingVars(env)) <==> !Truthy(env.appId)
    ensures ("MicrosoftAppPassword" in MissingVars(env)) <==> !Truthy(env.appPassword)
    ensures ("MicrosoftAppType" in MissingVars(env)) <==> !Truthy(env.appType)
    ensures ("MicrosoftAppTenantId" in MissingVars(env)) <==> !Truthy(env.tenantId)
    ensures |MissingVars(env)| <= 4
    ensures forall i, j :: 0 <= i < j < |MissingVars(env)| ==>
      Rank(MissingVars(env)[i]) < Rank(MissingVars(env)[j])
  {
  }

  /** The position of a variable in the order of the checks. */
  function Rank(name: string): nat {
    if name == "MicrosoftAppId" then 0
    else if name == "MicrosoftAppPassword" then 1
    else if name == "MicrosoftAppType" then 2
    else 3
  }

  /** A POST is a 400 listing the missing variables exactly when one of them is missing,
      and otherwise a 200 echoing the simulated message, whose text defaults to "test". */
  lemma PostOutcome(req: Request, env: AppEnv, now: string)
    requires req.httpMethod != "OPTIONS" && req.httpMethod != "GET"
    ensures Handle(req, env, now).status == 400 <==>
      !(Truthy(env.appId) && Truthy(env.appPassword) && Truthy(env.appType) && Truthy(env.tenantId))
    ensures Handle(req, env, now).status == 400 ==>
      Handle(req, env, now).body == MissingVariables(MissingVars(env))
    ensures Handle(req, env, now).status != 400 ==>
      && Handle(req, env, now).status == 200
      && Handle(req, env, now).body.ConfigurationOk?
      && Handle(req, env, now).body.received.text == JsonOr(PropOpt(req.body, "text"), JStr("test"))
      && Handle(req, env, now).body.appType == env.appType.value
  {
    MissingVarsExact(env);
  }

  /** The GET report shows "NOT SET" for a variable exactly when it is unset or empty,
      the application type verbatim, and the time of the request. */
  lemma GetReport(req: Request, env: AppEnv, now: string)
    requires req.httpMethod == "GET"
    ensures Handle(req, env, now).status == 200 && Handle(req, env, now).body.ConfigCheck?
    ensures var c := Handle(req, env, now).body.config;
      && (!Truthy(env.appId) <==> c.appId == NotSet)
      && (!Truthy(env.appPassword) <==> c.appPassword == NotSet)
      && (!Truthy(env.tenantId) <==> c.tenantId == NotSet)
      && c.appType == Or(env.appType, NotSet)
      && c.timestamp == now
  {
    if Truthy(env.appId) {
      PreviewRevealsPrefix(env.appId.value);
      assert Preview(env.appId)[|Preview(env.appId)| - 1] == '.';
    }
    if Truthy(env.tenantId) {
      PreviewRevealsPrefix(env.tenantId.value);
      assert Preview(env.tenantId)[|Preview(env.tenantId)| - 1] == '.';
    }
    if Truthy(env.appPassword) {
      assert MaskSecret(env.appPassword)[0] == '*';
    }
  }
}
