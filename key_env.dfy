/** The older key reader: the client id and secret as the first two lines of `key.env`. */
module KeyEnv {
  import opened Wrappers
  import opened Text
  import Constants

  const KeyEnvPath: string := "key.env"
  const ClientIdLen: nat := 32
  const ClientSecretLen: nat := 64

  /** What `grabAPIInfo` raises. */
  datatype KeyEnvError =
    | KeyFileNotFound                        // `KeyFileNotFoundError`
    | MissingArgument(exception: string)     // TypeError: an exception built without all its arguments
    | InvalidClientId(invalidId: string)     // `InvalidClientIdError(invalid_id, message)`
    | InvalidClientSecret(invalidSecret: string)

  /** Where the reading stops: no file, or a failed length check with the offending value. */
  datatype ReadFault = NoFile | BadIdLength(id: string) | BadSecretLength(secret: string)

  /** Both key readers demand the same lengths. */
  lemma SameLengthsAsPackagedReader()
    ensures ClientIdLen == Constants.ClientIdLen && ClientSecretLen == Constants.ClientSecretLen
  {
  }

  /** The reads and checks of `grabAPIInfo`: first line stripped is the id, second line stripped
      is the secret, each checked for its length as soon as it is read. `file` is the stored
      content of `key.env`, if it exists; it is opened in text mode, so its line ends are read
      with universal newlines. */
  function ReadKeyEnv(file: Option<string>): Result<(string, string), ReadFault>
  {
    match file
    case None => Failure(NoFile)
    case Some(text) =>
      var (idLine, rest) := ReadLine(UniversalNewlines(text));
      var id := Strip(idLine);
      if |id| != ClientIdLen then Failure(BadIdLength(id))
      else
        var (secretLine, _) := ReadLine(rest);
        var secret := Strip(secretLine);
        if |secret| != ClientSecretLen then Failure(BadSecretLength(secret))
        else Success((id, secret))
  }

  /** `grabAPIInfo` as written: the length errors are built with the message only, which raises
      a TypeError instead. */
  function GrabAPIInfo(file: Option<string>): Result<(string, string), KeyEnvError>
  {
    match ReadKeyEnv(file)
    case Success(key) => Success(key)
    case Failure(NoFile) => Failure(KeyFileNotFound)
    case Failure(BadIdLength(_)) => Failure(MissingArgument("InvalidClientIdError"))
    case Failure(BadSecretLength(_)) => Failure(MissingArgument("InvalidClientSecretError"))
  }

  /** `grabAPIInfo` with the length errors built as declared. */
  function GrabAPIInfoIntended(file: Option<string>): Result<(string, string), KeyEnvError>
  {
    match ReadKeyEnv(file)
    case Success(key) => Success(key)
    case Failure(NoFile) => Failure(KeyFileNotFound)
    case Failure(BadIdLength(id)) => Failure(InvalidClientId(id))
    case Failure(BadSecretLength(secret)) => Failure(InvalidClientSecret(secret))
  }

  /** Reading succeeds exactly when the stripped first two lines, as text mode reads them, have
      the required lengths, and yields them; a bad id is reported whatever follows it. */
  lemma GrabSucceedsIff(text: string)
    ensures var lines := UniversalNewlines(text);
      var id := Strip(ReadLine(lines).0);
      var secret := Strip(ReadLine(ReadLine(lines).1).0);
      && (GrabAPIInfo(Some(text)).Success? <==> |id| == ClientIdLen && |secret| == ClientSecretLen)
      && (GrabAPIInfo(Some(text)).Success? ==> GrabAPIInfo(Some(text)).value == (id, secret))
      && (|id| != ClientIdLen ==> GrabAPIInfo(Some(text)) == Failure(MissingArgument("InvalidClientIdError")))
  {
  }

  /** A key file written as two lines, id then secret, each ended by `\n`, `\r` or `\r\n`, reads
      back as that pair. */
  lemma KeyEnvRoundTrip(id: string, secret: string, eol1: string, eol2: string, rest: string)
    requires |id| == ClientIdLen && |secret| == ClientSecretLen
    requires '\n' !in id && '\r' !in id && '\n' !in secret && '\r' !in secret
    requires IsLineEnd(eol1) && IsLineEnd(eol2)
    requires !IsSpace(id[0]) && !IsSpace(id[|id| - 1]) && !IsSpace(secret[0]) && !IsSpace(secret[|secret| - 1])
    ensures GrabAPIInfo(Some(id + eol1 + secret + eol2 + rest)) == Success((id, secret))
  {
    var text := id + eol1 + secret + eol2 + rest;
    assert text == id + eol1 + (secret + eol2 + rest);
    ReadLineOfLine(id, eol1, secret + eol2 + rest);
    assert AfterLineEnd(eol1, secret + eol2 + rest) == secret + eol2 + rest;
    ReadLineOfLine(secret, eol2, rest);
    StripLine(id);
    StripLine(secret);
  }

  /** As written, a key of the wrong length never yields the documented length errors. */
  lemma AsWrittenNoLengthErrors(file: Option<string>)
    ensures var r := GrabAPIInfo(file); r.Failure? ==> !r.error.InvalidClientId? && !r.error.InvalidClientSecret?
    ensures GrabAPIInfo(file).Success? <==> GrabAPIInfoIntended(file).Success?
  {
    match ReadKeyEnv(file)
    case Success(_) =>
    case Failure(f) =>
  }

  /** With the errors built as declared, each failed check is reported with the stripped value. */
  lemma IntendedReportsLengths(text: string)
    ensures var lines := UniversalNewlines(text);
      var id := Strip(ReadLine(lines).0);
      var secret := Strip(ReadLine(ReadLine(lines).1).0);
      && (GrabAPIInfoIntended(Some(text)) == Failure(InvalidClientId(id)) <==> |id| != ClientIdLen)
      && (GrabAPIInfoIntended(Some(text)) == Failure(InvalidClientSecret(secret)) <==>
            |id| == ClientIdLen && |secret| != ClientSecretLen)
  {
  }
}
