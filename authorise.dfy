/** The OAuth 2 authorisation-code grant with PKCE ("plain" challenge) against the provider, the
    refresh grant, and the token file they keep. Both authorisation scripts (the packaged one and
    the older top-level one) run the same steps; they differ in the token file path and in how
    the endpoint is spelled, which a `Config` value captures. */
module Authorise {
  import opened Wrappers
  import opened Json
  import opened Http
  import opened Storage
  import opened Text
  import Percent
  import opened Constants

  /** Where a script keeps its token and which OAuth 2 endpoint it talks to. */
  datatype Config = Config(tokenPath: string, oauth2Endpoint: string)

  /** The packaged script: token under the metadata directory, endpoint from the constants. */
  const FetcherConfig: Config := Config(TokenPath, MalOAuth2Endpoint)

  /** The top-level script: `token.json` in the working directory, endpoint written out. */
  const ScriptConfig: Config := Config("token.json", "https://myanimelist.net/v1/oauth2")

  /** The outside world a grant talks to: the text `token_urlsafe(100)` produced, the code the
      user types after opening the printed URL, and the provider's answer to a form POST. */
  datatype Env = Env(
    randomText: string,
    enterCode: string -> string,
    post: (string, Form) -> HttpResponse)

  /** What the grants raise. */
  datatype AuthError =
    | TokenFileNotFound        // no token file
    | TokenFileUnreadable      // the token file is not JSON
    | HttpError(status: int)   // `raise_for_status` on the token response
    | ResponseNotJson          // `response.json()` failed
    | Lookup(err: LookupError) // `old_token['refresh_token']`

  /** The two scripts agree on the endpoint and differ only in where the token is kept. */
  lemma ConfigsAgree()
    ensures ScriptConfig.oauth2Endpoint == FetcherConfig.oauth2Endpoint
    ensures ScriptConfig.tokenPath != FetcherConfig.tokenPath
  {
  }

  // ---------------------------------------------------------------- PKCE

  /** `token_urlsafe(100)[:128]`: at most 128 characters of the random text. */
  function Verifier(randomText: string): (v: string)
    ensures |v| == if |randomText| < 128 then |randomText| else 128
    ensures v == randomText[..|v|]
  {
    if |randomText| < 128 then randomText else randomText[..128]
  }

  /** A code verifier as section 4.1 of RFC 7636 allows: 43 to 128 unreserved characters. */
  predicate IsCodeVerifier(v: string)
  {
    43 <= |v| <= 128 && forall k :: 0 <= k < |v| ==> Percent.IsUnreserved(v[k])
  }

  /** `token_urlsafe(100)` yields well over 128 URL-safe characters, so the cut always gives a
      verifier of the maximal length the RFC allows. */
  lemma VerifierIsValid(randomText: string)
    requires |randomText| >= 128
    requires forall k :: 0 <= k < |randomText| ==> Percent.IsUnreserved(randomText[k])
    ensures IsCodeVerifier(Verifier(randomText)) && |Verifier(randomText)| == 128
  {
  }

  // ---------------------------------------------------------------- authorisation code

  function AuthorizeQuery(clientId: string, codeChallenge: string): string
  {
    Param("response_type", "code") + "&" + Param("client_id", clientId) + "&" + Param("code_challenge", codeChallenge)
  }

  /** The URL printed for the user to open. */
  function AuthorizeUrl(config: Config, clientId: string, codeChallenge: string): string
  {
    config.oauth2Endpoint + "/authorize?" + AuthorizeQuery(clientId, codeChallenge)
  }

  /** The authorisation request carries exactly three parameters, the client id and the
      challenge among them, whenever neither holds an `&`. */
  lemma AuthorizeQueryParams(clientId: string, codeChallenge: string)
    requires '&' !in clientId && '&' !in codeChallenge
    ensures SplitChar(AuthorizeQuery(clientId, codeChallenge), '&')
      == [Param("response_type", "code"), Param("client_id", clientId), Param("code_challenge", codeChallenge)]
  {
    ParamWithout("response_type", "code", '&');
    ParamWithout("client_id", clientId, '&');
    ParamWithout("code_challenge", codeChallenge, '&');
    SplitThree(Param("response_type", "code"), Param("client_id", clientId), Param("code_challenge", codeChallenge), '&');
  }

  /** `getAuthorizationCode`: print the URL, read the code, strip surrounding whitespace. */
  function GetAuthorizationCode(config: Config, clientId: string, codeChallenge: string, enterCode: string -> string): (code: string)
    ensures code == [] || (!IsSpace(code[0]) && !IsSpace(code[|code| - 1]))
    ensures Contains(enterCode(AuthorizeUrl(config, clientId, codeChallenge)), code)
    ensures code == Strip(enterCode(AuthorizeUrl(config, clientId, codeChallenge)))
  {
    var typed := enterCode(AuthorizeUrl(config, clientId, codeChallenge));
    var code := Strip(typed);
    ContainsAt(typed, code, Leading(typed));
    code
  }

  // ---------------------------------------------------------------- token requests

  function TokenUrl(config: Config): string
  {
    config.oauth2Endpoint + "/token"
  }

  /** The form of the authorisation-code exchange. */
  function AuthCodeForm(clientId: string, clientSecret: string, code: string, verifier: string): (f: Form)
    ensures f.Keys == {"client_id", "client_secret", "code", "code_verifier", "grant_type"}
    ensures f["grant_type"] == JString("authorization_code")
    ensures f["client_id"] == JString(clientId) && f["client_secret"] == JString(clientSecret)
    ensures f["code"] == JString(code) && f["code_verifier"] == JString(verifier)
  {
    map[
      "client_id" := JString(clientId),
      "client_secret" := JString(clientSecret),
      "code" := JString(code),
      "code_verifier" := JString(verifier),
      "grant_type" := JString("authorization_code")]
  }

  /** The form of the refresh exchange. */
  function RefreshForm(clientId: string, clientSecret: string, refreshToken: Json): (f: Form)
    ensures f.Keys == {"client_id", "client_secret", "grant_type", "refresh_token"}
    ensures f["grant_type"] == JString("refresh_token")
    ensures f["refresh_token"] == refreshToken
    ensures f["client_id"] == JString(clientId) && f["client_secret"] == JString(clientSecret)
  {
    map[
      "client_id" := JString(clientId),
      "client_secret" := JString(clientSecret),
      "grant_type" := JString("refresh_token"),
      "refresh_token" := refreshToken]
  }

  /** The common tail of both grants: check the status, decode the body and write it to the
      token file. Yields the outcome and the files afterwards. */
  function Exchange(files: map<string, Stored>, config: Config, response: HttpResponse): (r: (Result<Json, AuthError>, map<string, Stored>))
    ensures r.0.Success? <==> !RaisesForStatus(response.status) && response.body.JsonBody?
    ensures RaisesForStatus(response.status) ==> r.0 == Failure(HttpError(response.status))
    ensures r.0.Failure? ==> r.1 == files
    ensures r.0.Success? ==>
      && r.0.value == response.body.value
      && r.1 == files[config.tokenPath := Parsed(r.0.value)]
  {
    if RaisesForStatus(response.status) then (Failure(HttpError(response.status)), files)
    else match response.body
      case NotJson => (Failure(ResponseNotJson), files)
      case JsonBody(token) => (Success(token), files[config.tokenPath := Parsed(token)])
  }

  /** `getAPIToken`: the authorisation-code grant. */
  function Grant(files: map<string, Stored>, config: Config, env: Env, clientId: string, clientSecret: string): (Result<Json, AuthError>, map<string, Stored>)
  {
    var verifier := Verifier(env.randomText);
    var code := GetAuthorizationCode(config, clientId, verifier, env.enterCode);
    Exchange(files, config, env.post(TokenUrl(config), AuthCodeForm(clientId, clientSecret, code, verifier)))
  }

  /** `loadTokenData` */
  function LoadTokenData(files: map<string, Stored>, config: Config): (r: Result<Json, AuthError>)
    ensures r.Success? <==> LoadJson(files, config.tokenPath).Success?
    ensures r.Success? ==> r.value == LoadJson(files, config.tokenPath).value
    ensures r == Failure(TokenFileNotFound) <==> config.tokenPath !in files
  {
    match LoadJson(files, config.tokenPath)
    case Success(token) => Success(token)
    case Failure(FileNotFound) => Failure(TokenFileNotFound)
    case Failure(JsonDecodeError) => Failure(TokenFileUnreadable)
  }

  /** `refreshAPIToken`: a missing token file falls back to a fresh grant; otherwise the stored
      refresh token is exchanged. */
  function Refresh(files: map<string, Stored>, config: Config, env: Env, clientId: string, clientSecret: string): (Result<Json, AuthError>, map<string, Stored>)
  {
    match LoadTokenData(files, config)
    case Failure(TokenFileNotFound) => Grant(files, config, env, clientId, clientSecret)
    case Failure(e) => (Failure(e), files)
    case Success(oldToken) =>
      match Subscript(oldToken, "refresh_token")
      case Failure(e) => (Failure(Lookup(e)), files)
      case Success(refreshToken) =>
        Exchange(files, config, env.post(TokenUrl(config), RefreshForm(clientId, clientSecret, refreshToken)))
  }

  /** Only the token file is ever written, and it is written exactly when a grant succeeds,
      with the token the grant returns; reading it back gives that token. */
  lemma GrantWritesOnlyToken(files: map<string, Stored>, config: Config, env: Env, clientId: string, clientSecret: string)
    ensures var (r, after) := Grant(files, config, env, clientId, clientSecret);
      && (r.Failure? ==> after == files)
      && (r.Success? ==> LoadJson(after, config.tokenPath) == Success(r.value))
      && forall p :: p != config.tokenPath ==> LoadJson(after, p) == LoadJson(files, p)
  {
  }

  lemma RefreshWritesOnlyToken(files: map<string, Stored>, config: Config, env: Env, clientId: string, clientSecret: string)
    ensures var (r, after) := Refresh(files, config, env, clientId, clientSecret);
      && (r.Failure? ==> after == files)
      && (r.Success? ==> LoadJson(after, config.tokenPath) == Success(r.value))
      && forall p :: p != config.tokenPath ==> LoadJson(after, p) == LoadJson(files, p)
  {
    match LoadTokenData(files, config)
    case Failure(TokenFileNotFound) =>
      GrantWritesOnlyToken(files, config, env, clientId, clientSecret);
    case Failure(_) =>
    case Success(oldToken) =>
  }

  /** Without a token file, refreshing is the same as a fresh grant; with an unreadable one,
      nothing is sent. */
  lemma RefreshFallsBack(files: map<string, Stored>, config: Config, env: Env, clientId: string, clientSecret: string)
    ensures config.tokenPath !in files ==>
      Refresh(files, config, env, clientId, clientSecret) == Grant(files, config, env, clientId, clientSecret)
    ensures config.tokenPath in files && files[config.tokenPath].Unparsable? ==>
      Refresh(files, config, env, clientId, clientSecret) == (Failure(TokenFileUnreadable), files)
  {
  }

  /** A stored token is refreshed with its own refresh token, sent with the `refresh_token`
      grant type to the token endpoint. */
  lemma RefreshSendsStoredRefreshToken(files: map<string, Stored>, config: Config, env: Env, clientId: string, clientSecret: string, refreshToken: Json)
    requires config.tokenPath in files && files[config.tokenPath].Parsed?
    requires var stored := files[config.tokenPath].value;
      stored.JObject? && "refresh_token" in stored.members && stored.members["refresh_token"] == refreshToken
    ensures var response := env.post(TokenUrl(config), RefreshForm(clientId, clientSecret, refreshToken));
      Refresh(files, config, env, clientId, clientSecret) == Exchange(files, config, response)
  {
  }

  /** PKCE with the plain method: the challenge shown in the authorisation URL is the verifier
      posted with the exchange. */
  lemma ChallengeIsVerifier(config: Config, env: Env, clientId: string, clientSecret: string)
    ensures var verifier := Verifier(env.randomText);
      var code := GetAuthorizationCode(config, clientId, verifier, env.enterCode);
      var form := AuthCodeForm(clientId, clientSecret, code, verifier);
      && form["code_verifier"] == JString(verifier)
      && form["code"] == JString(Strip(env.enterCode(AuthorizeUrl(config, clientId, verifier))))
      && AuthorizeQuery(clientId, verifier)[|AuthorizeQuery(clientId, verifier)| - |verifier|..] == verifier
  {
    var verifier := Verifier(env.randomText);
    EndsWithValue(Param("response_type", "code") + "&" + Param("client_id", clientId) + "&", "code_challenge", verifier);
  }

  /** The two scripts obtain the same token from the same provider answers; they only store it
      at different paths. */
  lemma ScriptMatchesFetcher(files: map<string, Stored>, env: Env, clientId: string, clientSecret: string)
    ensures Grant(files, ScriptConfig, env, clientId, clientSecret).0 == Grant(files, FetcherConfig, env, clientId, clientSecret).0
  {
    ConfigsAgree();
    GrantIgnoresTokenPath(files, ScriptConfig, FetcherConfig, env, clientId, clientSecret);
  }

  /** The token a grant obtains depends on the endpoint, not on where it is stored. */
  lemma GrantIgnoresTokenPath(files: map<string, Stored>, c1: Config, c2: Config, env: Env, clientId: string, clientSecret: string)
    requires c1.oauth2Endpoint == c2.oauth2Endpoint
    ensures Grant(files, c1, env, clientId, clientSecret).0 == Grant(files, c2, env, clientId, clientSecret).0
  {
  }

  // ---------------------------------------------------------------- imperative steps

  /** `load(open(token_path))` with the script's error mapping. */
  method LoadToken(fs: FileSystem, config: Config) returns (r: Result<Json, AuthError>)
    ensures r == LoadTokenData(fs.files, config)
  {
    var loaded := fs.Load(config.tokenPath);
    match loaded
    case Success(token) => r := Success(token);
    case Failure(FileNotFound) => r := Failure(TokenFileNotFound);
    case Failure(JsonDecodeError) => r := Failure(TokenFileUnreadable);
  }

  /** Check the token response and dump it to the token file. */
  method StoreToken(fs: FileSystem, config: Config, response: HttpResponse) returns (r: Result<Json, AuthError>)
    modifies fs
    ensures (r, fs.files) == Exchange(old(fs.files), config, response)
  {
    if RaisesForStatus(response.status) {
      return Failure(HttpError(response.status));
    }
    if response.body.NotJson? {
      return Failure(ResponseNotJson);
    }
    var token := response.body.value;
    fs.Dump(config.tokenPath, token);
    r := Success(token);
  }

  /** `getAPIToken(client_id, client_secret)` */
  method GetAPIToken(fs: FileSystem, config: Config, env: Env, clientId: string, clientSecret: string) returns (r: Result<Json, AuthError>)
    modifies fs
    ensures (r, fs.files) == Grant(old(fs.files), config, env, clientId, clientSecret)
  {
    var url := TokenUrl(config);
    var verifier := Verifier(env.randomText);
    var data := AuthCodeForm(clientId, clientSecret, GetAuthorizationCode(config, clientId, verifier, env.enterCode), verifier);
    var response := env.post(url, data);
    r := StoreToken(fs, config, response);
  }

  /** `refreshAPIToken(client_id, client_secret)` */
  method RefreshAPIToken(fs: FileSystem, config: Config, env: Env, clientId: string, clientSecret: string) returns (r: Result<Json, AuthError>)
    modifies fs
    ensures (r, fs.files) == Refresh(old(fs.files), config, env, clientId, clientSecret)
  {
    var oldToken := LoadToken(fs, config);
    if oldToken.Failure? {
      if oldToken.error == TokenFileNotFound {
        r := GetAPIToken(fs, config, env, clientId, clientSecret);
      } else {
        r := Failure(oldToken.error);
      }
      return;
    }
    var refreshToken := Subscript(oldToken.value, "refresh_token");
    if refreshToken.Failure? {
      return Failure(Lookup(refreshToken.error));
    }
    var response := env.post(TokenUrl(config), RefreshForm(clientId, clientSecret, refreshToken.value));
    r := StoreToken(fs, config, response);
  }

  // ---------------------------------------------------------------- validation

  datatype TokenValidationError = TokenValidationError(message: string)

  /** `validateToken(access_token)` of the packaged script, given the status of the GET it
      sends to `/v2/users/@me` with the access token as bearer: 401 and every other error status are told apart by the message. */
  function ValidateToken(status: int): (r: Result<(), TokenValidationError>)
    ensures r.Success? <==> !RaisesForStatus(status)
    ensures r.Failure? ==>
      (r.error.message == "Unauthorized use of current stored token" <==> status == 401)
  {
    if !RaisesForStatus(status) then Success(())
    else if status == 401 then Failure(TokenValidationError("Unauthorized use of current stored token"))
    else Failure(TokenValidationError("Other 400 code was raised upon validation"))
  }
}
