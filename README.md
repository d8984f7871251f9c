# MAL Data Fetcher — a verified model of its core

This project models, in Dafny, the core of MAL Data Fetcher: a set of Python prototypes that
fetch anime metadata from the MyAnimeList REST API and re-serve it through a small Flask backend.
The model covers:

- **Credentials** (`fetcher_api/key.py`, `key.py`). The client id (32 characters) and secret
  (64 characters) are asked for on the terminal when the key file is missing. They are kept in
  `_api/key.json`, or in the older reader as the first two lines of `key.env`, and checked for
  length when read.
- **OAuth 2 tokens** (`fetcher_api/authorise.py`, `authorise.py`, `fetcher_api/token.py`).
  - The authorisation-code grant with a PKCE verifier that doubles as the challenge (the
    "plain" method).
  - The refresh grant.
  - The token file those grants write.
  - The `APIToken` class: loads the stored token or runs the grant, probes the access token at
    `/v2/users/@me`. It has a refresh branch for a 401 answer, which never runs as written
    (see Findings).
- **Anime list queries** (`fetcher_api/MAL_classes.py`, `fetcher_api/constants.py`).
  - Checking the search text.
  - Clamping limit and offset.
  - The attribute allow-list filter.
  - The percent-encoded request URL.
  - Shaping the JSON response into `AnimeListNode`s, which expose only the queried attributes.
- **Database insert replies** (`flask_backend/backend/routes/_helpers.py`). A row is added and
  committed. Database errors are sorted by SQLAlchemy class into 201/409/500 replies, and
  constraint violations are classified by the driver's error text.

Shared modules:

- **`Json`**: JSON values and Python's subscript and `len`.
- **`Http`**: responses and `raise_for_status`.
- **`Storage`**: the JSON files on disk, as a `FileSystem` object whose methods update a path→content map.
- **`Text`**: `strip`, `readline`, `split`, `join`, `find`, decimal rendering.
- **`Percent`**: `urllib.parse.quote` with its UTF-8 percent-encoding, and a decoder proved to
  invert it.

Outside inputs become parameters:

- the text `token_urlsafe(100)` returned;
- what the user types;
- the provider's answer to a POST or GET (functions from URL and form or header to a response);
- the status of the token probe;
- the error the database raises.

Errors that Python raises become `Failure` values, with the branches and order of the code.

Where the code's own documentation and its behaviour disagree, the model follows the code:

- The `_refreshAPIToken` docstring (fetcher_api/token.py:229) says the token is refreshed upon a
  401. As written it never is (`TokenManager.AsWrittenNeverRefreshes`; see Findings).
- The `Raises` sections of key.py:50-51 and fetcher_api/key.py:114-115 name the length errors for
  a credential of the wrong length. As written a `TypeError` is raised instead (see Findings).
- The `APIToken` docstring (fetcher_api/token.py:55-56) says construction raises
  `TokenValidationError` for the 400-404 codes. As written `__init__` (lines 74-83) catches it,
  and for every code but 401 keeps the token (`TokenManager.IntendedKeepsTokenOtherwise`).

## Model

| member | source | states |
|---|---|---|
| `Json.Subscript` | fetcher_api/MAL_classes.py:331-336 | `value[key]` succeeds exactly when the value is a dict holding the key, and yields that member; a dict without it raises KeyError, anything else TypeError |
| `Json.Len` | fetcher_api/key.py:133-140 | `len` is defined exactly for strings, lists and dicts; a string's length is its number of characters |
| `Storage.LoadJson` | fetcher_api/token.py:136-142 | loading fails with FileNotFound exactly when the path is absent, succeeds exactly when the file holds JSON, and then yields that document |
| `Storage.DumpThenLoad` | fetcher_api/token.py:217-219 | a document dumped to a path loads back unchanged, and every other path loads as before |
| `Storage.FileSystem.Exists` | fetcher_api/key.py:154 | a path exists exactly when loading it does not fail with FileNotFound |
| `Storage.FileSystem.Load` | fetcher_api/key.py:129-130 | reading a file gives what `LoadJson` says of the current files |
| `Storage.FileSystem.Dump` | fetcher_api/key.py:167-168 | writing replaces exactly that path's content, which then loads back as the written document |
| `Text.Strip` | fetcher_api/authorise.py:69 | `strip` keeps the infix of its input that neither starts nor ends with whitespace, and drops only whitespace on either side |
| `Text.UniversalNewlines` | key.py:63 | a file opened in text mode is read with every `\r\n` and lone `\r` turned into `\n`, so no `\r` is left |
| `Text.UniversalNewlinesPrefix` | key.py:63 | text without `\r` is read exactly as stored, whatever follows it |
| `Text.LineEndRead` | key.py:63 | each of the line ends `\n`, `\r` and `\r\n` is read as one `\n`; a `\r` followed by `\n` is one line end |
| `Text.ReadLine` | key.py:65 | `readline` on the translated text splits it into a line and the rest; the line holds a newline only at its end, ends with one whenever text remains, and is empty only at the end of the file |
| `Text.ReadLineOfLine` | key.py:63-70 | a stored line holding neither `\r` nor `\n`, ended by any line end, is read back with a `\n`, and reading goes on after that line end |
| `Text.StripLine` | key.py:65 | a line without surrounding whitespace, read with its newline, strips back to itself |
| `Text.NatToString` | fetcher_api/MAL_classes.py:317-318 | an integer is rendered as a non-empty string of decimal digits |
| `Text.ParseNatToString` | fetcher_api/MAL_classes.py:317-318 | the decimal rendering of the limit and offset reads back as the same number |
| `Text.SplitJoin` | fetcher_api/MAL_classes.py:319 | splitting the comma-joined field list at `,` gives the list back when no name holds a comma |
| `Text.JoinSplitOn` | flask_backend/backend/routes/_helpers.py:89-90 | the parts of `split(', ')` joined with `', '` give back the split text |
| `Percent.Utf8` | fetcher_api/MAL_classes.py:316 | every character is encoded as one to four bytes |
| `Percent.Utf8RoundTrip` | fetcher_api/MAL_classes.py:316 | the first byte announces the length of the encoding, and decoding the bytes gives the character back |
| `Percent.QuoteEncoded` | fetcher_api/MAL_classes.py:316 | `quote(q)` holds only unreserved characters, `/` and `%` |
| `Percent.UnquoteQuote` | fetcher_api/MAL_classes.py:316 | percent-decoding `quote(q)` gives `q` back, for every search text |
| `Percent.QuoteSafeUnchanged` | fetcher_api/MAL_classes.py:316 | text made only of safe characters is left as it is by `quote` |
| `Constants.AttributeLists` | fetcher_api/constants.py:27-38 | the defaults are `id`, `title`, `main_picture`; there are 22 distinct optional names, none a default; the full list is the defaults followed by the optional names, without repeats |
| `Constants.AttributeNamesPlain` | fetcher_api/constants.py:27-36 | every attribute name is non-empty and made of lower-case letters and `_` |
| `Constants.NamesSurviveEncoding` | fetcher_api/MAL_classes.py:316-319 | such a name is unchanged by percent-encoding and holds no `,`, `&` or `=` |
| `Constants.CredentialsAndPaths` | fetcher_api/constants.py:3-24 | the id and secret lengths are 32 and 64; the token and key files are `_api/token.json` and `_api/key.json`; the OAuth 2 and anime endpoints are as configured |
| `AnimeLists.ClampLimit` | fetcher_api/MAL_classes.py:279-286 | the limit kept is always in 1..100; it is the caller's limit exactly when that is in range, and 100 otherwise |
| `AnimeLists.ClampOffset` | fetcher_api/MAL_classes.py:288-295 | the offset kept is the caller's exactly when that is non-negative, and 0 otherwise |
| `AnimeLists.RangeDiagnostics` | fetcher_api/MAL_classes.py:279-295 | a limit diagnostic is reported exactly when the limit was replaced, an offset diagnostic exactly when the offset was |
| `AnimeLists.ClampIdempotent` | fetcher_api/MAL_classes.py:279-295 | a clamped limit or offset is left as it is by clamping again |
| `AnimeLists.RejectionDiagnostics` | fetcher_api/MAL_classes.py:304-305 | one diagnostic per rejected attribute, in order, naming it |
| `AnimeLists.FilterAttributes` | fetcher_api/MAL_classes.py:297-306 | the loop yields the defaults followed by the admissible caller attributes, and the rejected ones for diagnostics |
| `AnimeLists.DefaultTestRedundant` | fetcher_api/MAL_classes.py:300 | the "already a default" half of the test never changes the outcome: the allow-list test alone accepts the same list |
| `AnimeLists.AcceptedAppend` | fetcher_api/MAL_classes.py:298-305 | filtering commutes with concatenation, so accepted and rejected attributes keep the caller's order |
| `AnimeLists.AcceptedCounts` | fetcher_api/MAL_classes.py:298-305 | an admissible attribute is kept as many times as given (no de-duplication), any other not at all, and every caller attribute is either kept or reported |
| `AnimeLists.AttributeListShape` | fetcher_api/MAL_classes.py:297-306 | the attribute list starts with `id`, `title`, `main_picture` and holds only allowed names |
| `AnimeLists.FilterExample` | fetcher_api/MAL_classes.py:298-305 | `synopsis` is appended to the defaults and `bogus_field` is reported |
| `AnimeLists.QueryScenario` | fetcher_api/MAL_classes.py:279-306 | limit 500 and offset −5 become 100 and 0; the fields are the defaults and `synopsis`; limit, offset and `bogus_field` are each reported |
| `AnimeLists.QueryParams` | fetcher_api/MAL_classes.py:313-320 | the query string splits at `&` into exactly `q`, `limit`, `offset` and `fields` parameters |
| `AnimeLists.QueryRoundTrip` | fetcher_api/MAL_classes.py:313-320 | reading the query back recovers the search text, limit, offset and attribute list |
| `AnimeLists.ListUrlRoundTrip` | fetcher_api/MAL_classes.py:313-320 | the whole request URL is the anime endpoint, `?`, and a query that reads back as the inputs |
| `AnimeLists.FieldsValue` | fetcher_api/MAL_classes.py:319 | the `fields` value is `id,title,main_picture` followed by the accepted caller attributes |
| `AnimeLists.FieldsAlwaysPresent` | fetcher_api/MAL_classes.py:319 | since the attribute list always holds the defaults, the `fields` parameter is always sent, last |
| `AnimeLists.ReadPage` | fetcher_api/MAL_classes.py:323-333 | the body is decoded and made a dict before the status is checked; the only success is a passing status with `paging` and a list `data`, giving the whole dict, its `paging` and the entries; `paging` is looked up before `data` |
| `AnimeLists.ErrorStatusOutcome` | fetcher_api/MAL_classes.py:323-328 | an error status gives InvalidAnimeListQError exactly when the body's message is "invalid q", the HTTP error for any other message, and a KeyError when there is no message |
| `AnimeLists.NodeOf` | fetcher_api/MAL_classes.py:336 | an entry gives a node exactly when it is a dict whose `node` member is a dict, and then that dict |
| `AnimeLists.NodesOfShape` | fetcher_api/MAL_classes.py:334-337 | shaping succeeds exactly when every entry gives a node, and then yields one node per entry, in entry order |
| `AnimeLists.NodeAccess` | fetcher_api/MAL_classes.py:124-136 | an ordinary name reads successfully exactly when it was queried, whatever the raw node holds; otherwise AnimeListNodeAttributeError; a queried name the node lacks reads as null |
| `AnimeLists.AllowedNamesNotInternal` | fetcher_api/MAL_classes.py:126-129 | no allowed attribute name is one of the node's internal names |
| `AnimeLists.AnimeListNode.constructor` | fetcher_api/MAL_classes.py:111-122 | the node keeps the raw node and the queried names, and sets exactly the queried names, each to the raw value or null |
| `AnimeLists.AnimeListNode.GetAttribute` | fetcher_api/MAL_classes.py:124-136 | attribute access on a node answers as `NodeLookup` says of its raw node and queried names |
| `AnimeLists.AnimeListNode.GetAttributeDict` | fetcher_api/MAL_classes.py:137-151 | the dict has exactly the queried names as keys, each mapped to what reading that name yields |
| `AnimeLists.BuildNodes` | fetcher_api/MAL_classes.py:333-337 | the node loop fails exactly when shaping fails, with the same error; otherwise it makes one fresh node per entry over its `node` dict, with the list's attributes |
| `AnimeLists.NewAnimeList` | fetcher_api/MAL_classes.py:267-337 | an empty search text fails first, with no diagnostics; otherwise diagnostics as above, one GET of the list URL with the bearer header, and the list or the error that `ReadPage` and `NodesOf` give for its response |
| `Authorise.ConfigsAgree` | authorise.py:5-6 | the top-level script uses the same OAuth 2 endpoint as the packaged one but a different token file |
| `Authorise.Verifier` | fetcher_api/authorise.py:46 | the verifier is the first 128 characters of the random text, or all of it when shorter |
| `Authorise.VerifierIsValid` | fetcher_api/authorise.py:35-46 | from `token_urlsafe(100)` output the verifier has 128 unreserved characters, which section 4.1 of RFC 7636 allows |
| `Authorise.AuthorizeQueryParams` | fetcher_api/authorise.py:61 | the authorisation URL carries exactly `response_type=code`, the client id and the code challenge |
| `Authorise.GetAuthorizationCode` | fetcher_api/authorise.py:48-69 | the code is the stripped text the user typed after seeing the authorize URL: an infix of it that neither starts nor ends with whitespace |
| `Authorise.AuthCodeForm` | fetcher_api/authorise.py:110-116 | the exchange form has exactly client id, secret, code, verifier and grant type `authorization_code`, each holding the given value |
| `Authorise.RefreshForm` | fetcher_api/authorise.py:171-176 | the refresh form has exactly client id, secret, grant type `refresh_token` and the refresh token, each holding the given value; the refresh token is sent as it was stored |
| `Authorise.Exchange` | fetcher_api/authorise.py:119-138 | the token response succeeds exactly when its status passes `raise_for_status` and it is JSON; on success that JSON is returned and written to the token file, on failure nothing is written |
| `Authorise.LoadTokenData` | fetcher_api/authorise.py:83-91 | the stored token is returned when readable; a missing file is TokenFileNotFoundError |
| `Authorise.GrantWritesOnlyToken` | fetcher_api/authorise.py:107-138 | the grant writes only the token file, only on success, and with the token it returns |
| `Authorise.RefreshWritesOnlyToken` | fetcher_api/authorise.py:155-198 | the same holds of the refresh grant |
| `Authorise.RefreshFallsBack` | fetcher_api/authorise.py:155-167 | without a token file, refreshing is a fresh grant; an unreadable token file fails without a request |
| `Authorise.RefreshSendsStoredRefreshToken` | fetcher_api/authorise.py:170-180 | a stored token is refreshed by posting its own refresh token with the `refresh_token` grant type |
| `Authorise.ChallengeIsVerifier` | fetcher_api/authorise.py:109-114 | the code challenge in the URL shown to the user is the verifier posted with the exchange, and the code posted is the stripped typed code |
| `Authorise.ScriptMatchesFetcher` | authorise.py:87-131 | both scripts obtain the same token from the same provider answers |
| `Authorise.LoadToken` | authorise.py:78-85 | loading the token gives `LoadTokenData` of the current files |
| `Authorise.StoreToken` | fetcher_api/authorise.py:119-135 | checking and storing a token response yields what `Exchange` says and leaves the files it says |
| `Authorise.GetAPIToken` | authorise.py:101-131 | the grant yields the outcome and the files `Grant` says |
| `Authorise.RefreshAPIToken` | authorise.py:133-177 | the refresh yields the outcome and the files `Refresh` says |
| `Authorise.ValidateToken` | fetcher_api/authorise.py:200-225 | validation fails exactly on an error status, with the "Unauthorized" message exactly for 401 |
| `TokenManager.ValidateToken` | fetcher_api/token.py:310-326 | 400, 403 and 404 raise their error; 401 returns its error instead of raising it; every other status passes; an error carries its status |
| `TokenManager.ValidateTokenIntended` | fetcher_api/token.py:317-322 | with the 401 raised, exactly 400, 401, 403 and 404 raise, and nothing is returned |
| `TokenManager.Obtain` | fetcher_api/token.py:63-70 | with a token file present nothing is written, a readable one is the token used and an unreadable one fails; without one the grant runs, and its token (which it stored) or its error is the outcome |
| `TokenManager.AsWrittenNeverRefreshes` | fetcher_api/token.py:74-83 | as written, construction never raises a validation error, and with a stored token it keeps that token and writes nothing, whatever the probe answers |
| `TokenManager.IntendedRefreshesOn401` | fetcher_api/token.py:76-83 | with the 401 raised, an expired token is refreshed: success returns and stores the new token; an HTTP error gives the original 401 validation error and writes nothing |
| `TokenManager.IntendedKeepsTokenOtherwise` | fetcher_api/token.py:76-83 | any status other than 401 keeps the stored token and writes nothing: a raised 400, 403 or 404 is caught and dropped |
| `TokenManager.InitWithoutTokenFile` | fetcher_api/token.py:63-73 | without a token file the grant runs first; its failure is the constructor's; its success is stored, and construction then holds the granted token unless the probe raises a 401 |
| `TokenManager.APIToken.GetToken` | fetcher_api/token.py:85-107 | `getToken` returns the token held |
| `TokenManager.NewAPIToken` | fetcher_api/token.py:61-83 | construction yields the token (in a fresh object) or the error that `Init` says, and leaves the files it says |
| `ApiKey.ReadKeyFile` | fetcher_api/key.py:126-145 | the key file reads successfully exactly when it holds a dict whose `_id` has length 32 and whose `_secret` has length 64, and then yields that dict; KeyFileNotFoundError exactly when there is no file |
| `ApiKey.GrabAPIInfo` | fetcher_api/key.py:126-145 | as written, reading succeeds exactly when `ReadKeyFile` does |
| `ApiKey.GrabAPIInfoIntended` | fetcher_api/key.py:134-140 | with the length errors built as declared, reading succeeds exactly when `ReadKeyFile` does |
| `ApiKey.WrongLengthIsTypeError` | fetcher_api/key.py:134-140 | as written, a wrong id length (checked first) and then a wrong secret length each surface as a TypeError, never as the documented length errors |
| `ApiKey.IntendedReportsLengths` | fetcher_api/key.py:36-58 | with the errors built as declared, InvalidClientIdError carries the id exactly when its length is wrong, InvalidClientSecretError the secret exactly when only it is wrong |
| `ApiKey.KeyRecord` | fetcher_api/key.py:159-162 | the written record has exactly the keys `_id` and `_secret`, holding the given id and secret |
| `ApiKey.MakeKeyFileSpec` | fetcher_api/key.py:154-169 | afterwards the key file exists; a new one holds the stripped answers as `_id` and `_secret`; an existing key file and all other files are left alone |
| `ApiKey.MakeKeyFile` | fetcher_api/key.py:147-169 | making the key file leaves the files `MakeKeyFileSpec` says |
| `ApiKey.NoKeyFileNotFoundAfterMake` | fetcher_api/key.py:80-90 | after the key file is made, reading it never reports it missing, so the constructor's retry is dead |
| `ApiKey.PromptedKeyRoundTrip` | fetcher_api/key.py:154-168 | on first run, the typed id and secret, stripped, are exactly what is read back when their lengths are right |
| `ApiKey.APIKey.GetKey` | fetcher_api/key.py:95-102 | `getKey` returns the id and the secret, in that order |
| `ApiKey.ConstructorError` | fetcher_api/key.py:84-87 | a length error is answered with APIKeyInvalidArgumentError, which as written (a bare raise of a class whose constructor needs a message and the child error) is a TypeError, and when built as declared carries the length error; any other error passes through |
| `ApiKey.BareRaiseIsTypeError` | fetcher_api/key.py:84-87 | even with the length errors built as declared, a key of the wrong length ends in the TypeError of the bare raise |
| `ApiKey.WrappedReportsLengths` | fetcher_api/key.py:84-87 | with the wrapper built as declared, a wrong id gives APIKeyInvalidArgumentError carrying the id's length error, and a right id with a wrong secret one carrying the secret's |
| `ApiKey.NewAPIKey` | fetcher_api/key.py:78-93 | construction makes the key file if needed, then holds the file's `_id` and `_secret`; a failure is the reader's error as the `except` clauses turn it (`ConstructorError`), for the as-written or corrected reader and raise |
| `KeyEnv.SameLengthsAsPackagedReader` | key.py:2-3 | the older reader demands the same lengths as the packaged one |
| `KeyEnv.GrabSucceedsIff` | key.py:61-75 | reading succeeds exactly when the stripped first two lines, with text-mode line ends, have lengths 32 and 64, and yields them; a bad id fails whatever follows |
| `KeyEnv.KeyEnvRoundTrip` | key.py:63-75 | a file of an id line and a secret line, each ended by `\n`, `\r` or `\r\n` and holding no line-end character, reads back as that pair |
| `KeyEnv.AsWrittenNoLengthErrors` | key.py:66-72 | as written, no failure is a documented length error, and reading succeeds exactly when the intended reader does |
| `KeyEnv.IntendedReportsLengths` | key.py:16-38 | with the errors built as declared, each failed check is reported with the stripped value |
| `DbErrors.ClassifyFirstMarker` | flask_backend/backend/routes/_helpers.py:53-101 | the violation chosen is named in the driver's text, no earlier one in the test order is, and the error is unhandled exactly when no marker appears |
| `DbErrors.MessagesDistinct` | flask_backend/backend/routes/_helpers.py:60-101 | different violations get different messages |
| `DbErrors.GroupEnd` | flask_backend/backend/routes/_helpers.py:56 | the lazy group ends at the first closing character, with no newline before it; if there is none, every closing character comes after a newline |
| `DbErrors.SearchSound` | flask_backend/backend/routes/_helpers.py:56 | a found attribute sits between the opening text and the closing character in the error text, and holds neither the closing character nor a newline |
| `DbErrors.SearchFinds` | flask_backend/backend/routes/_helpers.py:56 | the attribute is found when nothing earlier starts the opening text |
| `DbErrors.SearchLeftmost` | flask_backend/backend/routes/_helpers.py:56 | a found attribute is the group of the leftmost position where the pattern matches |
| `DbErrors.SearchNoneNowhere` | flask_backend/backend/routes/_helpers.py:56 | nothing is found only when the pattern matches at no position |
| `DbErrors.SearchExample` | flask_backend/backend/routes/_helpers.py:56 | from `Key (email)=(a@b.c) already exists.` the attribute found is `email` |
| `DbErrors.ExclusionColumns` | flask_backend/backend/routes/_helpers.py:85-92 | the columns of an exclusion key, when split, join back to the captured key |
| `DbErrors.ConflictReply` | flask_backend/backend/routes/_helpers.py:104-109 | a conflict is answered with 409 and a body of exactly `message` (the classified message) and `details` (the driver text) |
| `DbErrors.ServerErrorReply` | flask_backend/backend/routes/_helpers.py:112-117 | a server error is answered with 500 and a body of exactly `message`, the generic message, and `details`, the given text |
| `DbErrors.Handle` | flask_backend/backend/routes/_helpers.py:46-117 | as written, every statement error gets the 409 conflict reply, an InvalidRequestError fails on its missing `orig`, and any other error propagates |
| `DbErrors.HandleAsWritten` | flask_backend/backend/routes/_helpers.py:46-117 | as written, every statement error, OperationalError included, gives 409; InvalidRequestError escapes as an AttributeError; so no 500 reply is ever produced |
| `DbErrors.ConflictReplyIntended` | flask_backend/backend/routes/users.py:47-50 | the documented conflict reply is the 409 body as written plus `attr_in_question`, holding the attribute classified from the text |
| `DbErrors.HandleIntended` | flask_backend/backend/routes/_helpers.py:46-117 | with the 500 clause first, a lost connection gets 500 with the driver text, an InvalidRequestError 500 with `str(err)` (it has no `orig`), other statement errors the 409 reply with the attribute in question, and anything else propagates |
| `DbErrors.HandleIntendedStatuses` | flask_backend/backend/routes/users.py:40-53 | with the 500 clause first, 500 means a connection or request error, and a 409 names the attribute in question |
| `DbErrors.Session.Add` | flask_backend/backend/routes/_helpers.py:37 | adding puts the row at the end of the pending rows |
| `DbErrors.Session.Commit` | flask_backend/backend/routes/_helpers.py:40 | committing moves all pending rows, in order, to the committed rows |
| `DbErrors.Session.Rollback` | flask_backend/backend/routes/_helpers.py:48 | rolling back drops the pending rows and keeps the committed ones |
| `DbErrors.InsertDataToSession` | flask_backend/backend/routes/_helpers.py:15-117 | without an error the row is committed and the reply is 201 "User created"; with one, nothing is committed, a statement error is rolled back, and the reply is what `Handle` says |

## Left out

- Printing and terminal colours (`print`, `termcolor`) are left out; the messages that go to the
  terminal appear as `Diagnostic` values or error payloads.
- `os.makedirs` of the metadata directory is left out: files are keyed by path, without directories.
- File-system errors other than "not found" (permissions, a directory in place of a file) are
  left out. So are text decoding errors, network failures and timeouts. Responses are assumed
  to arrive.
- `secrets.token_urlsafe` is an input: its randomness is not modelled, only its alphabet and length.
- `dict(response.json())` on a JSON list of pairs, which Python accepts, is modelled as a
  failure like any other non-object body (`BodyNotObject`).
- A `data` member that is an empty dict or empty string, which Python would iterate as empty, is
  modelled as `DataNotList`.
- A queried attribute whose name is one of `AnimeListNode`'s internal names would overwrite that
  attribute in Python. The model keeps the internal names fixed (`AnimeLists.NodeLookup`). No
  allowed attribute has such a name (`AnimeLists.AllowedNamesNotInternal`).
- The access token in the bearer header and the token probe are taken as given: `_validateToken`'s
  GET becomes a status per access token (`TokenManager.AsWritten`, `TokenManager.Intended`).
- JSON numbers are `real`; the model never computes with them.
- SQLAlchemy's exception classes are reduced to the five the helper names plus "other". Their
  inheritance (`IntegrityError`, `DataError` and `OperationalError` derive from `StatementError`)
  is stated as a fact of the library, not derived. The text of `err.orig` is an input.
- `AnimeLists.ListUrlRoundTrip`: stated for attribute names without `,` and `&`, which every
  allowed name satisfies (`Constants.NamesSurviveEncoding`).
- `Authorise.ValidateToken` models only the packaged script's validator; the top-level script has none.
- `StaleTokenError` of the top-level `authorise.py` is never raised there, and is not modelled.
- `ApiKey.NewAPIKey` and `TokenManager.NewAPIToken` take the as-written and corrected behaviour as
  parameters (`intended` and `wrap`; `validate`), so both can be stated by one method.
- `DbErrors.InsertDataToSession` models the handler as written; the corrected handler is
  `DbErrors.HandleIntended`.

## Findings

| source | as written | input that shows it | evidently intended | confidence | as-written member | corrected member |
|---|---|---|---|---|---|---|
| fetcher_api/token.py:320-322 | for status 401, `_validateToken` returns its `TokenValidationError` instead of raising it, so the refresh in `__init__` (lines 76-83) never runs | a stored token whose access token the provider answers with 401 | raise it, so the token is refreshed and a failed refresh reports the 401 | not executed | `TokenManager.AsWrittenNeverRefreshes` | `TokenManager.IntendedRefreshesOn401` |
| fetcher_api/key.py:134-140 | `InvalidClientIdError` and `InvalidClientSecretError` take an offending value and a message (lines 40, 52) but are built with the message only, so the raise is a `TypeError` that `__init__` does not catch | a key file whose `_id` has 31 characters | raise the length error with the offending value, so that the `except` at line 86 catches it | not executed | `ApiKey.WrongLengthIsTypeError` | `ApiKey.IntendedReportsLengths` |
| fetcher_api/key.py:87 | `raise APIKeyInvalidArgumentError` raises the bare class, whose `__init__` (line 16) needs a message and the child error, so the raise is a `TypeError` | a key file whose `_id` has 31 characters, once lines 134-140 build the length error | build the wrapper with a message and the caught length error | not executed | `ApiKey.BareRaiseIsTypeError` | `ApiKey.WrappedReportsLengths` |
| key.py:66-72 | the same one-argument construction of both length errors, so a wrong length raises `TypeError` | a `key.env` whose first line is `abc` | raise the length error carrying the stripped value | not executed | `KeyEnv.AsWrittenNoLengthErrors` | `KeyEnv.IntendedReportsLengths` |
| flask_backend/backend/routes/_helpers.py:46-117 | the first `except` names `StatementError`, from which SQLAlchemy derives `OperationalError`, so a lost connection gets 409; the 500 clause only sees `InvalidRequestError`, which has no `orig`, so it raises `AttributeError` | a commit failing with `OperationalError` | 500 for a lost connection, as routes/users.py:52 documents, and for a request error, as the second clause (line 110) means, reporting `str(err)` since such an error has no `orig` | not executed; depends on SQLAlchemy's exception classes | `DbErrors.HandleAsWritten` | `DbErrors.HandleIntendedStatuses` |
| flask_backend/backend/routes/_helpers.py:104-109 | the 409 body has only `message` and `details`; the attribute computed at lines 52-101 is dropped | an `IntegrityError` whose text names `UniqueViolation` and `Key (email)` | also send `attr_in_question`, as routes/users.py:47-50 documents | not executed | `DbErrors.ConflictReply` | `DbErrors.ConflictReplyIntended` |
