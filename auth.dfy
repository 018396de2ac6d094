/** `auth.ts`: choosing OpenAI or Qwen credentials from the environment and handing
    them to the SDK. The process environment is the parameter `env`; a variable that is
    not in the map is unset. */
module Auth {
  import opened Wrappers

  type Env = map<string, string>

  /** `'openai' | 'qwen'`. */
  datatype AuthType = OpenAI | Qwen

  // ---------------------------------------------------------------------------------
  // Variable names and defaults

  /** The API-key variables, in the order they are tried. */
  const OpenAIKeyVars: seq<string> := ["OPENAI_API_KEY", "OPENAI_KEY"]
  const QwenKeyVars: seq<string> := ["QWEN_API_KEY", "DASHSCOPE_API_KEY", "DASHSCOPE_APIKEY"]

  const OpenAIBaseUrlVar: string := "OPENAI_BASE_URL"
  const OpenAIModelVar: string := "OPENAI_MODEL"
  const OpenAIOrgVar: string := "OPENAI_ORG_ID"
  const OpenAIProjectVar: string := "OPENAI_PROJECT"
  const QwenBaseUrlVar: string := "QWEN_BASE_URL"
  const QwenModelVar: string := "QWEN_MODEL"
  const QwenWorkspaceVar: string := "QWEN_WORKSPACE_ID"
  const QwenAppVar: string := "QWEN_APP_NAME"
  const QwenSearchVar: string := "QWEN_ENABLE_SEARCH"
  const TimeoutVar: string := "TIMEOUT"
  const MaxRetriesVar: string := "MAX_RETRIES"
  /** The variable `getSDKEnv` writes the key to for Qwen; it is also the first Qwen key
      variable. */
  const QwenApiKeyVar: string := "QWEN_API_KEY"
  const OpenAIApiKeyVar: string := "OPENAI_API_KEY"

  function DefaultModel(t: AuthType): string {
    match t
    case OpenAI => "gpt-4o"
    case Qwen => "qwen-plus"
  }

  function DefaultBaseUrl(t: AuthType): string {
    match t
    case OpenAI => "https://api.openai.com/v1"
    case Qwen => "https://dashscope.aliyuncs.com/compatible-mode/v1"
  }

  function BaseUrlVar(t: AuthType): string {
    match t
    case OpenAI => OpenAIBaseUrlVar
    case Qwen => QwenBaseUrlVar
  }

  function ModelVar(t: AuthType): string {
    match t
    case OpenAI => OpenAIModelVar
    case Qwen => QwenModelVar
  }

  function KeyVars(t: AuthType): seq<string> {
    match t
    case OpenAI => OpenAIKeyVars
    case Qwen => QwenKeyVars
  }

  const MissingOpenAIKey: string :=
    "Missing OpenAI API Key. Please set OPENAI_API_KEY environment variable"
  const MissingQwenKey: string :=
    "Missing Qwen API Key. Please set QWEN_API_KEY or DASHSCOPE_API_KEY environment variable"
  const NoKeyDetected: string :=
    "No API Key detected. Please set one of the following environment variables:\n\n"
    + "OpenAI: OPENAI_API_KEY=sk-...\n"
    + "Qwen: QWEN_API_KEY=sk-... or DASHSCOPE_API_KEY=sk-..."

  // ---------------------------------------------------------------------------------
  // Reading variables

  /** `process.env[key]`. */
  function Lookup(env: Env, key: string): Option<string> {
    if key in env then Some(env[key]) else None
  }

  /** A variable is set when it holds a truthy, that is non-empty, string. */
  predicate IsSet(env: Env, key: string) {
    key in env && env[key] != ""
  }

  /** `a || b` on an optional string. */
  function Or(a: Option<string>, b: string): string {
    if a.Some? && a.value != "" then a.value else b
  }

  /** Some variable of `keys` is set. */
  predicate AnySet(env: Env, keys: seq<string>) {
    exists i | 0 <= i < |keys| :: IsSet(env, keys[i])
  }

  /** The value of the first variable of `keys` that is set; none when no variable is. */
  function FirstSet(env: Env, keys: seq<string>): (r: Option<string>)
    ensures r.Some? <==> AnySet(env, keys)
    ensures r.Some? ==> r.value != ""
    ensures r.Some? ==> exists i | 0 <= i < |keys| ::
              IsSet(env, keys[i]) && r.value == env[keys[i]]
              && forall j :: 0 <= j < i ==> !IsSet(env, keys[j])
  {
    if keys == [] then None
    else if IsSet(env, keys[0]) then
      Some(env[keys[0]])
    else
      var r := FirstSet(env, keys[1..]);
      assert forall i :: 0 < i < |keys| ==> keys[i] == keys[1..][i - 1];
      if r.Some? then
        var i :| 0 <= i < |keys[1..]| && IsSet(env, keys[1..][i]) && r.value == env[keys[1..][i]]
                 && forall j :: 0 <= j < i ==> !IsSet(env, keys[1..][j]);
        assert forall j :: 0 <= j < i + 1 ==> !IsSet(env, keys[j]) by {
          forall j | 0 <= j < i + 1 ensures !IsSet(env, keys[j]) {
            if j > 0 { assert keys[j] == keys[1..][j - 1]; }
          }
        }
        r
      else
        r
  }

  /** `getEnvValue`: the keys are tried in order and the first truthy value wins. */
  method GetEnvValue(env: Env, keys: seq<string>) returns (r: Option<string>)
    ensures r == FirstSet(env, keys)
  {
    var i := 0;
    while i < |keys|
      invariant 0 <= i <= |keys|
      invariant FirstSet(env, keys[i..]) == FirstSet(env, keys)
    {
      if IsSet(env, keys[i]) {
        return Some(env[keys[i]]);
      }
      assert keys[i..][1..] == keys[i + 1..];
      i := i + 1;
    }
    return None;
  }

  // ---------------------------------------------------------------------------------
  // Detecting the provider

  /** Any OpenAI key decides for OpenAI, whatever Qwen keys are set; otherwise any Qwen
      key decides for Qwen. */
  function DetectedType(env: Env): (r: Option<AuthType>)
    ensures r.None? <==> !AnySet(env, OpenAIKeyVars) && !AnySet(env, QwenKeyVars)
    ensures r == Some(Qwen) <==> !AnySet(env, OpenAIKeyVars) && AnySet(env, QwenKeyVars)
    ensures r.Some? ==> AnySet(env, KeyVars(r.value))
  {
    if AnySet(env, OpenAIKeyVars) then Some(OpenAI)
    else if AnySet(env, QwenKeyVars) then Some(Qwen)
    else None
  }

  /** `detectAuthType`: two loops over the key lists, returning at the first set key. */
  method DetectAuthType(env: Env) returns (t: Option<AuthType>)
    ensures t == DetectedType(env)
  {
    for i := 0 to |OpenAIKeyVars|
      invariant forall j :: 0 <= j < i ==> !IsSet(env, OpenAIKeyVars[j])
    {
      if IsSet(env, OpenAIKeyVars[i]) {
        return Some(OpenAI);
      }
    }
    for i := 0 to |QwenKeyVars|
      invariant forall j :: 0 <= j < i ==> !IsSet(env, QwenKeyVars[j])
    {
      if IsSet(env, QwenKeyVars[i]) {
        return Some(Qwen);
      }
    }
    return None;
  }

  /** Setting a Qwen key never takes the choice away from OpenAI. */
  lemma OpenAIPreferred(env: Env, key: string, value: string)
    requires AnySet(env, OpenAIKeyVars) && key in QwenKeyVars
    ensures DetectedType(env[key := value]) == Some(OpenAI)
  {
    var i :| 0 <= i < |OpenAIKeyVars| && IsSet(env, OpenAIKeyVars[i]);
    assert OpenAIKeyVars[i] != key;
    assert IsSet(env[key := value], OpenAIKeyVars[i]);
  }

  // ---------------------------------------------------------------------------------
  // The configuration

  datatype ResultFormat = Message | Text

  /** `AuthConfig`. `timeout` and `maxRetries` are kept as the text handed to
      `parseInt`. */
  datatype AuthConfig = AuthConfig(
    kind: AuthType,
    apiKey: string,
    baseUrl: Option<string>,
    model: Option<string>,
    organizationId: Option<string>,
    projectName: Option<string>,
    timeoutText: string,
    maxRetriesText: string,
    enableSearch: Option<bool>,
    resultFormat: Option<ResultFormat>)

  /** `createOpenAIConfig`. */
  function CreateOpenAIConfig(env: Env): (r: Result<AuthConfig, string>)
    ensures r.Failure? <==> !AnySet(env, OpenAIKeyVars)
    ensures r.Failure? ==> r.error == MissingOpenAIKey
    ensures r.Success? ==> r.value.kind == OpenAI && Some(r.value.apiKey) == FirstSet(env, OpenAIKeyVars)
  {
    match FirstSet(env, OpenAIKeyVars)
    case None => Failure(MissingOpenAIKey)
    case Some(apiKey) =>
      Success(AuthConfig(
        OpenAI,
        apiKey,
        Some(Or(Lookup(env, OpenAIBaseUrlVar), DefaultBaseUrl(OpenAI))),
        Some(Or(Lookup(env, OpenAIModelVar), DefaultModel(OpenAI))),
        Lookup(env, OpenAIOrgVar),
        Lookup(env, OpenAIProjectVar),
        Or(Lookup(env, TimeoutVar), "30000"),
        Or(Lookup(env, MaxRetriesVar), "3"),
        None,
        None))
  }

  /** `createQwenConfig`. */
  function CreateQwenConfig(env: Env): (r: Result<AuthConfig, string>)
    ensures r.Failure? <==> !AnySet(env, QwenKeyVars)
    ensures r.Failure? ==> r.error == MissingQwenKey
    ensures r.Success? ==> r.value.kind == Qwen && Some(r.value.apiKey) == FirstSet(env, QwenKeyVars)
  {
    match FirstSet(env, QwenKeyVars)
    case None => Failure(MissingQwenKey)
    case Some(apiKey) =>
      Success(AuthConfig(
        Qwen,
        apiKey,
        Some(Or(Lookup(env, QwenBaseUrlVar), DefaultBaseUrl(Qwen))),
        Some(Or(Lookup(env, QwenModelVar), DefaultModel(Qwen))),
        Lookup(env, QwenWorkspaceVar),
        Lookup(env, QwenAppVar),
        Or(Lookup(env, TimeoutVar), "30000"),
        Or(Lookup(env, MaxRetriesVar), "3"),
        Some(Lookup(env, QwenSearchVar) == Some("true")),
        Some(Message)))
  }

  /** `createAuthConfig`. */
  function CreateAuthConfig(env: Env): (r: Result<AuthConfig, string>)
    ensures r.Failure? <==> DetectedType(env).None?
    ensures r.Failure? ==> r.error == NoKeyDetected
    ensures r.Success? ==> r.value.kind == DetectedType(env).value
  {
    match DetectedType(env)
    case None => Failure(NoKeyDetected)
    case Some(OpenAI) => CreateOpenAIConfig(env)
    case Some(Qwen) => CreateQwenConfig(env)
  }

  /** A configuration `createAuthConfig` returns: the key is the first set key variable of
      the detected provider, so it is not empty; base URL and model are the provider's
      variables when set and the provider's defaults otherwise, so both are present and
      non-empty. */
  lemma CreatedConfig(env: Env)
    requires CreateAuthConfig(env).Success?
    ensures var c := CreateAuthConfig(env).value;
            && c.apiKey != ""
            && Some(c.apiKey) == FirstSet(env, KeyVars(c.kind))
            && c.baseUrl == Some(if IsSet(env, BaseUrlVar(c.kind)) then env[BaseUrlVar(c.kind)]
                                 else DefaultBaseUrl(c.kind))
            && c.model == Some(if IsSet(env, ModelVar(c.kind)) then env[ModelVar(c.kind)]
                               else DefaultModel(c.kind))
            && c.baseUrl.value != "" && c.model.value != ""
  {
    if DetectedType(env) == Some(OpenAI) {
      ProviderConfig(env, OpenAI, CreateOpenAIConfig(env));
    } else {
      ProviderConfig(env, Qwen, CreateQwenConfig(env));
    }
  }

  /** The fields `createOpenAIConfig` and `createQwenConfig` share, for either. */
  lemma ProviderConfig(env: Env, t: AuthType, r: Result<AuthConfig, string>)
    requires r == (if t == OpenAI then CreateOpenAIConfig(env) else CreateQwenConfig(env))
    requires r.Success?
    ensures var c := r.value;
            && c.kind == t
            && c.apiKey != ""
            && Some(c.apiKey) == FirstSet(env, KeyVars(t))
            && c.baseUrl == Some(if IsSet(env, BaseUrlVar(t)) then env[BaseUrlVar(t)]
                                 else DefaultBaseUrl(t))
            && c.model == Some(if IsSet(env, ModelVar(t)) then env[ModelVar(t)]
                               else DefaultModel(t))
            && c.baseUrl.value != "" && c.model.value != ""
  {
  }

  /** A Qwen configuration turns search on exactly when `QWEN_ENABLE_SEARCH` is the text
      `true`, and always asks for the `message` result format; an OpenAI configuration
      sets neither. */
  lemma QwenOptions(env: Env)
    requires CreateAuthConfig(env).Success?
    ensures var c := CreateAuthConfig(env).value;
            && (c.kind == Qwen ==>
                  c.enableSearch.Some? && (c.enableSearch.value <==> QwenSearchVar in env && env[QwenSearchVar] == "true")
                  && c.resultFormat == Some(Message))
            && (c.kind == OpenAI ==> c.enableSearch.None? && c.resultFormat.None?)
  {
  }

  /** Through `createAuthConfig` the "Missing … API Key" errors cannot occur: the only
      failure is the one that names no provider. */
  lemma MissingKeyUnreachable(env: Env)
    ensures CreateAuthConfig(env).Failure? ==> CreateAuthConfig(env).error == NoKeyDetected
    ensures CreateAuthConfig(env).Failure? ==> !AnySet(env, OpenAIKeyVars) && !AnySet(env, QwenKeyVars)
  {
  }

  // ---------------------------------------------------------------------------------
  // Handing the configuration to the SDK

  /** The variables `getSDKEnv` can write. */
  const SdkVars: set<string> := {OpenAIApiKeyVar, OpenAIBaseUrlVar, OpenAIModelVar, QwenApiKeyVar, QwenBaseUrlVar}

  /** `getSDKEnv`: the key always goes out as `OPENAI_API_KEY`; a truthy base URL and
      model go out as `OPENAI_BASE_URL` and `OPENAI_MODEL`; a Qwen configuration also
      keeps `QWEN_API_KEY` and, with a truthy base URL, `QWEN_BASE_URL`. */
  method GetSDKEnv(config: AuthConfig) returns (env: Env)
    ensures env.Keys <= SdkVars
    ensures OpenAIApiKeyVar in env && env[OpenAIApiKeyVar] == config.apiKey
    ensures OpenAIBaseUrlVar in env <==> Truthy(config.baseUrl)
    ensures OpenAIBaseUrlVar in env ==> env[OpenAIBaseUrlVar] == config.baseUrl.value
    ensures OpenAIModelVar in env <==> Truthy(config.model)
    ensures OpenAIModelVar in env ==> env[OpenAIModelVar] == config.model.value
    ensures QwenApiKeyVar in env <==> config.kind == Qwen
    ensures QwenApiKeyVar in env ==> env[QwenApiKeyVar] == config.apiKey
    ensures QwenBaseUrlVar in env <==> config.kind == Qwen && Truthy(config.baseUrl)
    ensures QwenBaseUrlVar in env ==> env[QwenBaseUrlVar] == config.baseUrl.value
  {
    env := map[];
    env := env[OpenAIApiKeyVar := config.apiKey];
    if Truthy(config.baseUrl) {
      env := env[OpenAIBaseUrlVar := config.baseUrl.value];
    }
    if Truthy(config.model) {
      env := env[OpenAIModelVar := config.model.value];
    }
    if config.kind == Qwen {
      env := env[QwenApiKeyVar := config.apiKey];
      if Truthy(config.baseUrl) {
        env := env[QwenBaseUrlVar := config.baseUrl.value];
      }
    }
  }

  predicate Truthy(o: Option<string>) {
    o.Some? && o.value != ""
  }

  /** `getSDKAuthType`: the SDK is always driven through its OpenAI-compatible
      interface, whatever the provider. */
  function GetSDKAuthType(config: AuthConfig): (r: string)
    ensures r == "openai"
  {
    "openai"
  }

  /** `{ provider, model }` for display. */
  datatype ConfigInfo = ConfigInfo(provider: string, model: string)

  /** `getConfigInfo`: the provider's display name, and the configured model unless it is
      absent or empty, in which case the placeholder `default`. */
  function GetConfigInfo(config: AuthConfig): (info: ConfigInfo)
    ensures info.provider == "OpenAI" <==> config.kind == OpenAI
    ensures info.provider == "Qwen (Tongyi Qianwen)" <==> config.kind == Qwen
    ensures Truthy(config.model) ==> info.model == config.model.value
    ensures !Truthy(config.model) ==> info.model == "default"
  {
    assert "OpenAI" != "Qwen (Tongyi Qianwen)";
    ConfigInfo(
      if config.kind == OpenAI then "OpenAI" else "Qwen (Tongyi Qianwen)",
      Or(config.model, "default"))
  }

  /** For a configuration `createAuthConfig` returns, the display names the detected
      provider and the model in use, which is never the placeholder `default` unless a
      model variable says so. */
  lemma ConfigInfoOfCreated(env: Env)
    requires CreateAuthConfig(env).Success?
    ensures var c := CreateAuthConfig(env).value;
            var info := GetConfigInfo(c);
            && (info.provider == "OpenAI" <==> DetectedType(env) == Some(OpenAI))
            && info.model == (if IsSet(env, ModelVar(c.kind)) then env[ModelVar(c.kind)]
                              else DefaultModel(c.kind))
  {
    CreatedConfig(env);
    var c := CreateAuthConfig(env).value;
    assert "OpenAI" != "Qwen (Tongyi Qianwen)";
  }
}
