/** `APIKey`: the client id and secret, kept in the JSON key file under the metadata directory
    and asked for on the terminal when that file is missing. */
module ApiKey {
  import opened Wrappers
  import opened Json
  import opened Storage
  import opened Text
  import opened Constants

  /** What constructing an `APIKey` raises. */
  datatype KeyError =
    | KeyFileNotFound                        // `KeyFileNotFoundError`
    | KeyFileUnreadable                      // the key file is not JSON
    | Lookup(err: LookupError)               // `key_dict[...]`, or `len` of a value without one
    | MissingArgument(exception: string)     // TypeError: an exception built without all its arguments
    | InvalidClientId(invalidId: Json)       // `InvalidClientIdError(invalid_id, message)`
    | InvalidClientSecret(invalidSecret: Json)
    | APIKeyInvalidArgument(child: KeyError) // `APIKeyInvalidArgumentError(message, child_error)`

  /** Where `_grabAPIInfo` stops: an error it raises directly, or a failed length check on the
      id or the secret, which it reports by building an exception. */
  datatype GrabFault = Raise(error: KeyError) | BadIdLength(id: Json) | BadSecretLength(secret: Json)

  /** The reads and checks of `_grabAPIInfo`, in order: load the key file, read `_id` and check
      its length, read `_secret` and check its length, return the whole dict. */
  function ReadKeyFile(files: map<string, Stored>): (r: Result<Json, GrabFault>)
    ensures r.Success? <==>
      && KeyPath in files && files[KeyPath].Parsed?
      && Subscript(files[KeyPath].value, "_id").Success?
      && Len(files[KeyPath].value.members["_id"]) == Success(ClientIdLen)
      && Subscript(files[KeyPath].value, "_secret").Success?
      && Len(files[KeyPath].value.members["_secret"]) == Success(ClientSecretLen)
    ensures r.Success? ==> r.value == files[KeyPath].value
    ensures r.Success? ==> r.value.JObject? && "_id" in r.value.members && "_secret" in r.value.members
    ensures r == Failure(Raise(KeyFileNotFound)) <==> KeyPath !in files
  {
    match LoadJson(files, KeyPath)
    case Failure(FileNotFound) => Failure(Raise(KeyFileNotFound))
    case Failure(JsonDecodeError) => Failure(Raise(KeyFileUnreadable))
    case Success(keyDict) =>
      match Subscript(keyDict, "_id")
      case Failure(e) => Failure(Raise(Lookup(e)))
      case Success(id) =>
        match Len(id)
        case Failure(e) => Failure(Raise(Lookup(e)))
        case Success(n) =>
          if n != ClientIdLen then Failure(BadIdLength(id))
          else match Subscript(keyDict, "_secret")
            case Failure(e) => Failure(Raise(Lookup(e)))
            case Success(secret) =>
              match Len(secret)
              case Failure(e) => Failure(Raise(Lookup(e)))
              case Success(m) =>
                if m != ClientSecretLen then Failure(BadSecretLength(secret)) else Success(keyDict)
  }

  /** `_grabAPIInfo` as written: both length errors are built with the message only, so
      building them raises a TypeError for the missing second argument. */
  function GrabAPIInfo(files: map<string, Stored>): (r: Result<Json, KeyError>)
    ensures r.Success? <==> ReadKeyFile(files).Success?
    ensures r.Success? ==> r.value == ReadKeyFile(files).value
    ensures r == Failure(KeyFileNotFound) <==> KeyPath !in files
  {
    match ReadKeyFile(files)
    case Success(keyDict) => Success(keyDict)
    case Failure(Raise(e)) => Failure(e)
    case Failure(BadIdLength(_)) => Failure(MissingArgument("InvalidClientIdError"))
    case Failure(BadSecretLength(_)) => Failure(MissingArgument("InvalidClientSecretError"))
  }

  /** `_grabAPIInfo` with the length errors built as declared, carrying the offending value. */
  function GrabAPIInfoIntended(files: map<string, Stored>): (r: Result<Json, KeyError>)
    ensures r.Success? <==> ReadKeyFile(files).Success?
    ensures r.Success? ==> r.value == ReadKeyFile(files).value
    ensures r == Failure(KeyFileNotFound) <==> KeyPath !in files
  {
    match ReadKeyFile(files)
    case Success(keyDict) => Success(keyDict)
    case Failure(Raise(e)) => Failure(e)
    case Failure(BadIdLength(id)) => Failure(InvalidClientId(id))
    case Failure(BadSecretLength(secret)) => Failure(InvalidClientSecret(secret))
  }

  /** As written, a key of the wrong length never produces the documented length errors: the
      id is checked first, and either failure surfaces as a TypeError. */
  lemma WrongLengthIsTypeError(files: map<string, Stored>, id: Json, secret: Json)
    requires KeyPath in files && files[KeyPath].Parsed? && files[KeyPath].value.JObject?
    requires var m := files[KeyPath].value.members; "_id" in m && "_secret" in m && m["_id"] == id && m["_secret"] == secret
    requires id.JString? && secret.JString?
    ensures |id.s| != ClientIdLen ==> GrabAPIInfo(files) == Failure(MissingArgument("InvalidClientIdError"))
    ensures |id.s| == ClientIdLen && |secret.s| != ClientSecretLen ==>
      GrabAPIInfo(files) == Failure(MissingArgument("InvalidClientSecretError"))
    ensures var r := GrabAPIInfo(files); r.Failure? ==> !r.error.InvalidClientId? && !r.error.InvalidClientSecret?
  {
  }

  /** With the errors built as declared, a wrong length is reported with the offending value. */
  lemma IntendedReportsLengths(files: map<string, Stored>, id: Json, secret: Json)
    requires KeyPath in files && files[KeyPath].Parsed? && files[KeyPath].value.JObject?
    requires var m := files[KeyPath].value.members; "_id" in m && "_secret" in m && m["_id"] == id && m["_secret"] == secret
    requires id.JString? && secret.JString?
    ensures GrabAPIInfoIntended(files) == Failure(InvalidClientId(id)) <==> |id.s| != ClientIdLen
    ensures GrabAPIInfoIntended(files) == Failure(InvalidClientSecret(secret)) <==>
      |id.s| == ClientIdLen && |secret.s| != ClientSecretLen
    ensures GrabAPIInfoIntended(files) == Success(files[KeyPath].value) <==>
      |id.s| == ClientIdLen && |secret.s| == ClientSecretLen
  {
  }

  /** The record `_makeKeyFile` writes. */
  function KeyRecord(id: string, secret: string): (k: Json)
    ensures k.JObject? && k.members.Keys == {"_id", "_secret"}
    ensures k.members["_id"] == JString(id) && k.members["_secret"] == JString(secret)
  {
    JObject(map["_id" := JString(id), "_secret" := JString(secret)])
  }

  /** `_makeKeyFile`: when there is no key file, the two typed answers, stripped, are written;
      an existing file is left alone. */
  function MakeKeyFileSpec(files: map<string, Stored>, typedId: string, typedSecret: string): (after: map<string, Stored>)
    ensures KeyPath in after
    ensures KeyPath in files ==> after == files
    ensures KeyPath !in files ==> after[KeyPath] == Parsed(KeyRecord(Strip(typedId), Strip(typedSecret)))
    ensures forall p :: p != KeyPath ==> (p in after <==> p in files) && (p in files ==> after[p] == files[p])
  {
    if KeyPath in files then files
    else files[KeyPath := Parsed(KeyRecord(Strip(typedId), Strip(typedSecret)))]
  }

  method MakeKeyFile(fs: FileSystem, typedId: string, typedSecret: string)
    modifies fs
    ensures fs.files == MakeKeyFileSpec(old(fs.files), typedId, typedSecret)
  {
    if !fs.Exists(KeyPath) {
      var clientId := Strip(typedId);
      var clientSecret := Strip(typedSecret);
      fs.Dump(KeyPath, KeyRecord(clientId, clientSecret));
    }
  }

  /** After `_makeKeyFile` the key file exists, so the `KeyFileNotFoundError` retry of the
      constructor can never run. */
  lemma NoKeyFileNotFoundAfterMake(files: map<string, Stored>, typedId: string, typedSecret: string)
    ensures GrabAPIInfo(MakeKeyFileSpec(files, typedId, typedSecret)) != Failure(KeyFileNotFound)
    ensures GrabAPIInfoIntended(MakeKeyFileSpec(files, typedId, typedSecret)) != Failure(KeyFileNotFound)
  {
    var after := MakeKeyFileSpec(files, typedId, typedSecret);
    assert KeyPath in after;
  }

  /** First run: the answers typed at the prompt, once stripped, are exactly what is read back,
      provided they have the required lengths. */
  lemma PromptedKeyRoundTrip(files: map<string, Stored>, typedId: string, typedSecret: string)
    requires KeyPath !in files
    requires |Strip(typedId)| == ClientIdLen && |Strip(typedSecret)| == ClientSecretLen
    ensures GrabAPIInfo(MakeKeyFileSpec(files, typedId, typedSecret)) == Success(KeyRecord(Strip(typedId), Strip(typedSecret)))
  {
    var after := MakeKeyFileSpec(files, typedId, typedSecret);
    var k := KeyRecord(Strip(typedId), Strip(typedSecret));
    assert after[KeyPath] == Parsed(k);
    assert k.members["_id"] == JString(Strip(typedId));
    assert k.members["_secret"] == JString(Strip(typedSecret));
  }

  class APIKey {
    var id: Json
    var secret: Json

    constructor (id: Json, secret: Json)
      ensures this.id == id && this.secret == secret
    {
      this.id := id;
      this.secret := secret;
    }

    /** `getKey` */
    function GetKey(): (k: (Json, Json))
      reads this
      ensures k == (id, secret)
    {
      (id, secret)
    }
  }

  /** The `except` of `APIKey()` around `_grabAPIInfo`: a length error is answered by raising
      `APIKeyInvalidArgumentError`; other errors pass through. As written (`wrap == false`) the
      bare class is raised, and since its constructor needs a message and the child error, that
      raise is a TypeError; `wrap` builds it with the length error as its child. */
  function ConstructorError(e: KeyError, wrap: bool): (r: KeyError)
    ensures !e.InvalidClientId? && !e.InvalidClientSecret? ==> r == e
    ensures (e.InvalidClientId? || e.InvalidClientSecret?) && !wrap ==> r == MissingArgument("APIKeyInvalidArgumentError")
    ensures (e.InvalidClientId? || e.InvalidClientSecret?) && wrap ==> r == APIKeyInvalidArgument(e)
  {
    if e.InvalidClientId? || e.InvalidClientSecret? then
      if wrap then APIKeyInvalidArgument(e) else MissingArgument("APIKeyInvalidArgumentError")
    else e
  }

  /** Even with the length errors built as declared, the bare raise of the wrapper turns a key of
      the wrong length into a TypeError, so `APIKeyInvalidArgumentError` never reaches a caller. */
  lemma BareRaiseIsTypeError(files: map<string, Stored>, id: Json, secret: Json)
    requires KeyPath in files && files[KeyPath].Parsed? && files[KeyPath].value.JObject?
    requires var m := files[KeyPath].value.members; "_id" in m && "_secret" in m && m["_id"] == id && m["_secret"] == secret
    requires id.JString? && secret.JString?
    requires |id.s| != ClientIdLen || |secret.s| != ClientSecretLen
    ensures GrabAPIInfoIntended(files).Failure?
    ensures ConstructorError(GrabAPIInfoIntended(files).error, false) == MissingArgument("APIKeyInvalidArgumentError")
  {
    IntendedReportsLengths(files, id, secret);
  }

  /** With the wrapper built as declared, a wrong length is reported as `APIKeyInvalidArgumentError`
      whose child is the length error carrying the offending value, the id being checked first. */
  lemma WrappedReportsLengths(files: map<string, Stored>, id: Json, secret: Json)
    requires KeyPath in files && files[KeyPath].Parsed? && files[KeyPath].value.JObject?
    requires var m := files[KeyPath].value.members; "_id" in m && "_secret" in m && m["_id"] == id && m["_secret"] == secret
    requires id.JString? && secret.JString?
    ensures var g := GrabAPIInfoIntended(files);
      && (g.Failure? && ConstructorError(g.error, true) == APIKeyInvalidArgument(InvalidClientId(id)) <==> |id.s| != ClientIdLen)
      && (g.Failure? && ConstructorError(g.error, true) == APIKeyInvalidArgument(InvalidClientSecret(secret)) <==>
            |id.s| == ClientIdLen && |secret.s| != ClientSecretLen)
  {
    IntendedReportsLengths(files, id, secret);
  }

  /** `APIKey()`: make the key file if needed, then read it. `intended` selects the length errors
      as declared (`GrabAPIInfoIntended`) rather than the TypeErrors of `GrabAPIInfo`; `wrap`
      selects the wrapper built as declared rather than the bare raise (`ConstructorError`). */
  method NewAPIKey(fs: FileSystem, typedId: string, typedSecret: string, intended: bool, wrap: bool)
    returns (r: Result<APIKey, KeyError>)
    modifies fs
    ensures fs.files == MakeKeyFileSpec(old(fs.files), typedId, typedSecret)
    ensures var grabbed := if intended then GrabAPIInfoIntended(fs.files) else GrabAPIInfo(fs.files);
      && (r.Failure? <==> grabbed.Failure?)
      && (r.Failure? ==> r.error == ConstructorError(grabbed.error, wrap))
      && (r.Success? ==>
            && fresh(r.value)
            && r.value.id == grabbed.value.members["_id"]
            && r.value.secret == grabbed.value.members["_secret"])
  {
    MakeKeyFile(fs, typedId, typedSecret);
    var grabbed := if intended then GrabAPIInfoIntended(fs.files) else GrabAPIInfo(fs.files);
    assert KeyPath in fs.files;
    if grabbed.Failure? {
      if grabbed.error.InvalidClientId? || grabbed.error.InvalidClientSecret? {
        if wrap {
          return Failure(APIKeyInvalidArgument(grabbed.error));
        }
        return Failure(MissingArgument("APIKeyInvalidArgumentError"));
      }
      if grabbed.error == KeyFileNotFound {
        // The key file was made just above, so the retry (make the file, read it again) is dead.
        assert false;
      }
      return Failure(grabbed.error);
    }
    var keyDict := grabbed.value;
    var key := new APIKey(keyDict.members["_id"], keyDict.members["_secret"]);
    r := Success(key);
  }
}
