/** `APIToken`: loads the stored token or runs the authorisation-code grant, then checks the
    access token against the provider. Its refresh branch for a 401 is never reached as written,
    because the 401 error is returned rather than raised. */
module TokenManager {
  import opened Wrappers
  import opened Json
  import opened Http
  import opened Storage
  import opened Constants
  import Authorise

  /** `TokenValidationError(message, code)` */
  datatype TokenValidationError = TokenValidationError(message: string, code: int)

  /** What `_validateToken` does with the status of its probe: nothing, hand an error back as
      its return value, or raise it. */
  datatype Validation = Passed | Returned(error: TokenValidationError) | Raised(error: TokenValidationError)

  /** What constructing an `APIToken` raises. */
  datatype TokenError =
    | TokenFileUnreadable                        // the token file is not JSON
    | BareHttpError                              // an `HTTPError` re-raised without its response
    | ResponseNotJson                            // the token response is not JSON
    | Lookup(err: LookupError)                   // `_token['access_token']` or `['refresh_token']`
    | TokenValidation(error: TokenValidationError)

  /** `_validateToken`: the status-to-error table. 400, 403 and 404 raise; 401 returns its
      error instead of raising it; any other status passes. */
  function ValidateToken(status: int): (v: Validation)
    ensures v.Raised? <==> status in {400, 403, 404}
    ensures v.Returned? <==> status == 401
    ensures !RaisesForStatus(status) ==> v == Passed
    ensures !v.Passed? ==> v.error.code == status
  {
    if !RaisesForStatus(status) then Passed
    else if status == 400 then Raised(TokenValidationError("Invalid parameters detected", status))
    else if status == 401 then Returned(TokenValidationError("Invalid/Expired token", status))
    else if status == 403 then Raised(TokenValidationError("DoD detected", status))
    else if status == 404 then Raised(TokenValidationError("Invalid Path/File Not Found", status))
    else Passed
  }

  /** The same table with the 401 error raised, so that the caller's refresh can see it. */
  function ValidateTokenIntended(status: int): (v: Validation)
    ensures v.Raised? <==> status in {400, 401, 403, 404}
    ensures !v.Returned?
    ensures !v.Passed? ==> v.error.code == status
  {
    match ValidateToken(status)
    case Returned(e) => Raised(e)
    case v => v
  }

  /** Errors of the grant as `APIToken` re-raises them: an HTTP error loses its response. */
  function FromGrantError(e: Authorise.AuthError): TokenError
  {
    match e
    case HttpError(_) => BareHttpError
    case ResponseNotJson => ResponseNotJson
    case Lookup(l) => Lookup(l)
    // the grant never reads the token file, so the last two cases cannot occur
    case TokenFileNotFound => TokenFileUnreadable
    case TokenFileUnreadable => TokenFileUnreadable
  }

  /** The token `__init__` starts from: the stored one, or a fresh grant when there is none. */
  function Obtain(files: map<string, Stored>, env: Authorise.Env, clientId: string, clientSecret: string): (r: (Result<Json, TokenError>, map<string, Stored>))
    ensures TokenPath in files ==> r.1 == files
    ensures TokenPath in files && files[TokenPath].Parsed? ==> r.0 == Success(files[TokenPath].value)
    ensures TokenPath in files && !files[TokenPath].Parsed? ==> r.0 == Failure(TokenFileUnreadable)
    ensures TokenPath !in files ==>
      var (g, afterGrant) := Authorise.Grant(files, Authorise.FetcherConfig, env, clientId, clientSecret);
      && r.1 == afterGrant
      && (g.Success? ==> r.0 == Success(g.value) && LoadJson(r.1, TokenPath) == Success(g.value))
      && (g.Failure? ==> r.0 == Failure(FromGrantError(g.error)) && r.1 == files)
  {
    match LoadJson(files, TokenPath)
    case Success(token) => (Success(token), files)
    case Failure(JsonDecodeError) => (Failure(TokenFileUnreadable), files)
    case Failure(FileNotFound) =>
      var (g, after) := Authorise.Grant(files, Authorise.FetcherConfig, env, clientId, clientSecret);
      (match g case Success(t) => Success(t) case Failure(e) => Failure(FromGrantError(e)), after)
  }

  /** `_refreshAPIToken` as `__init__` calls it: an HTTP error is replaced by the validation
      error that caused the refresh. */
  function RefreshAfter(files: map<string, Stored>, env: Authorise.Env, clientId: string, clientSecret: string,
                        token: Json, cause: TokenValidationError): (Result<Json, TokenError>, map<string, Stored>)
  {
    match Subscript(token, "refresh_token")
    case Failure(e) => (Failure(Lookup(e)), files)
    case Success(refreshToken) =>
      var config := Authorise.FetcherConfig;
      var response := env.post(Authorise.TokenUrl(config), Authorise.RefreshForm(clientId, clientSecret, refreshToken));
      var (x, after) := Authorise.Exchange(files, config, response);
      (match x
       case Success(t) => Success(t)
       case Failure(e) => if e.HttpError? then Failure(TokenValidation(cause)) else Failure(FromGrantError(e)), after)
  }

  /** `APIToken.__init__(key)` for a given validation step: the token it ends up holding (or
      what it raises) and the files afterwards. */
  function Init(files: map<string, Stored>, env: Authorise.Env, clientId: string, clientSecret: string,
                validate: Json -> Validation): (Result<Json, TokenError>, map<string, Stored>)
  {
    var (obtained, files1) := Obtain(files, env, clientId, clientSecret);
    match obtained
    case Failure(e) => (Failure(e), files1)
    case Success(token) =>
      match Subscript(token, "access_token")
      case Failure(e) => (Failure(Lookup(e)), files1)
      case Success(accessToken) =>
        match validate(accessToken)
        case Raised(cause) =>
          if cause.code == 401 then RefreshAfter(files1, env, clientId, clientSecret, token, cause)
          else (Success(token), files1)
        case _ => (Success(token), files1)
  }

  /** The validation step of the code as written; `status` is the provider's answer to the
      probe made with a given access token. */
  function AsWritten(status: Json -> int): Json -> Validation
  {
    a => ValidateToken(status(a))
  }

  function Intended(status: Json -> int): Json -> Validation
  {
    a => ValidateTokenIntended(status(a))
  }

  /** As written, construction never refreshes and never raises a validation error: with a
      readable stored token that has an access token, it keeps that token and writes nothing,
      whatever the provider answers (400, 401, 403 and 404 included). */
  lemma AsWrittenNeverRefreshes(files: map<string, Stored>, env: Authorise.Env, clientId: string, clientSecret: string, status: Json -> int)
    ensures var r := Init(files, env, clientId, clientSecret, AsWritten(status)).0;
      r.Failure? ==> !r.error.TokenValidation?
    ensures TokenPath in files && files[TokenPath].Parsed? && files[TokenPath].value.JObject?
            && "access_token" in files[TokenPath].value.members ==>
      Init(files, env, clientId, clientSecret, AsWritten(status)) == (Success(files[TokenPath].value), files)
    ensures TokenPath !in files ==>
      var (g, afterGrant) := Authorise.Grant(files, Authorise.FetcherConfig, env, clientId, clientSecret);
      g.Success? && Subscript(g.value, "access_token").Success? ==>
        Init(files, env, clientId, clientSecret, AsWritten(status)) == (Success(g.value), afterGrant)
  {
    var (obtained, files1) := Obtain(files, env, clientId, clientSecret);
    if obtained.Success? && Subscript(obtained.value, "access_token").Success? {
      var accessToken := Subscript(obtained.value, "access_token").value;
      var v := AsWritten(status)(accessToken);
      assert v == ValidateToken(status(accessToken));
      assert v.Raised? ==> v.error.code != 401;
    }
  }

  /** With the 401 raised, an expired stored token is refreshed: the new token is returned and
      stored, and a refused refresh surfaces as the 401 validation error. */
  lemma IntendedRefreshesOn401(files: map<string, Stored>, env: Authorise.Env, clientId: string, clientSecret: string,
                               status: Json -> int, accessToken: Json, refreshToken: Json)
    requires TokenPath in files && files[TokenPath].Parsed?
    requires var t := files[TokenPath].value;
      && t.JObject? && "access_token" in t.members && "refresh_token" in t.members
      && t.members["access_token"] == accessToken && t.members["refresh_token"] == refreshToken
    requires status(accessToken) == 401
    ensures var response := env.post(Authorise.TokenUrl(Authorise.FetcherConfig),
                                     Authorise.RefreshForm(clientId, clientSecret, refreshToken));
      var (r, after) := Init(files, env, clientId, clientSecret, Intended(status));
      && (RaisesForStatus(response.status) ==>
            r == Failure(TokenValidation(TokenValidationError("Invalid/Expired token", 401))) && after == files)
      && (!RaisesForStatus(response.status) && response.body.JsonBody? ==>
            r == Success(response.body.value) && LoadJson(after, TokenPath) == Success(response.body.value))
  {
    var v := Intended(status)(accessToken);
    assert v == Raised(TokenValidationError("Invalid/Expired token", 401));
  }

  /** Statuses other than 401 never trigger a refresh, even with the 401 raised: a raised 400,
      403 or 404 is caught by the constructor and dropped. */
  lemma IntendedKeepsTokenOtherwise(files: map<string, Stored>, env: Authorise.Env, clientId: string, clientSecret: string,
                                    status: Json -> int, accessToken: Json)
    requires TokenPath in files && files[TokenPath].Parsed?
    requires var t := files[TokenPath].value; t.JObject? && "access_token" in t.members && t.members["access_token"] == accessToken
    requires status(accessToken) != 401
    ensures Init(files, env, clientId, clientSecret, Intended(status)) == (Success(files[TokenPath].value), files)
  {
    var v := Intended(status)(accessToken);
    assert v == ValidateTokenIntended(status(accessToken));
  }

  /** Without a token file, construction runs the grant first; it then holds the granted token,
      unless the probe raises a 401 and a refresh follows. */
  lemma InitWithoutTokenFile(files: map<string, Stored>, env: Authorise.Env, clientId: string, clientSecret: string, validate: Json -> Validation)
    requires TokenPath !in files
    ensures var (g, afterGrant) := Authorise.Grant(files, Authorise.FetcherConfig, env, clientId, clientSecret);
      && (g.Failure? ==> Init(files, env, clientId, clientSecret, validate) == (Failure(FromGrantError(g.error)), files))
      && (g.Success? ==> LoadJson(afterGrant, TokenPath) == Success(g.value))
      && (g.Success? && Subscript(g.value, "access_token").Success?
          && !(validate(Subscript(g.value, "access_token").value).Raised?
               && validate(Subscript(g.value, "access_token").value).error.code == 401) ==>
            Init(files, env, clientId, clientSecret, validate) == (Success(g.value), afterGrant))
  {
    Authorise.GrantWritesOnlyToken(files, Authorise.FetcherConfig, env, clientId, clientSecret);
  }

  class APIToken {
    var token: Json

    constructor (token: Json)
      ensures this.token == token
    {
      this.token := token;
    }

    /** `getToken` */
    function GetToken(): (t: Json)
      reads this
      ensures t == token
    {
      token
    }
  }

  /** `APIToken(key)`: `validate` stands for `_validateToken` applied to the access token. */
  method NewAPIToken(fs: FileSystem, env: Authorise.Env, clientId: string, clientSecret: string, validate: Json -> Validation)
    returns (r: Result<APIToken, TokenError>)
    modifies fs
    ensures var (expected, after) := Init(old(fs.files), env, clientId, clientSecret, validate);
      && fs.files == after
      && (r.Failure? <==> expected.Failure?)
      && (r.Failure? ==> r.error == expected.error)
      && (r.Success? ==> fresh(r.value) && r.value.token == expected.value)
  {
    var token: Json;
    var loaded := fs.Load(TokenPath);
    match loaded {
      case Success(t) =>
        token := t;
      case Failure(JsonDecodeError) =>
        return Failure(TokenFileUnreadable);
      case Failure(FileNotFound) =>
        var g := Authorise.GetAPIToken(fs, Authorise.FetcherConfig, env, clientId, clientSecret);
        if g.Failure? {
          return Failure(FromGrantError(g.error));
        }
        token := g.value;
    }

    ghost var files1 := fs.files;
    assert Obtain(old(fs.files), env, clientId, clientSecret) == (Success(token), files1);
    var apiToken := new APIToken(token);
    var accessToken := Subscript(apiToken.token, "access_token");
    if accessToken.Failure? {
      return Failure(Lookup(accessToken.error));
    }
    var validation := validate(accessToken.value);
    if validation.Raised? && validation.error.code == 401 {
      var refreshToken := Subscript(apiToken.token, "refresh_token");
      if refreshToken.Failure? {
        return Failure(Lookup(refreshToken.error));
      }
      var config := Authorise.FetcherConfig;
      var response := env.post(Authorise.TokenUrl(config), Authorise.RefreshForm(clientId, clientSecret, refreshToken.value));
      var newToken := Authorise.StoreToken(fs, config, response);
      assert (newToken, fs.files) == Authorise.Exchange(files1, config, response);
      if newToken.Failure? {
        if newToken.error.HttpError? {
          return Failure(TokenValidation(validation.error));
        }
        return Failure(FromGrantError(newToken.error));
      }
      apiToken.token := newToken.value;
    }
    r := Success(apiToken);
  }
}
