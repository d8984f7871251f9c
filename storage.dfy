/** The JSON files the fetcher keeps on disk (token and key), as a map from path to content. */
module Storage {
  import opened Wrappers
  import opened Json

  /** A file that exists either holds a decodable JSON document or does not. */
  datatype Stored = Parsed(value: Json) | Unparsable

  /** What `open(path)` followed by `json.load` raises. */
  datatype LoadError = FileNotFound | JsonDecodeError

  /** `with open(path, 'r') as f: load(f)` */
  function LoadJson(files: map<string, Stored>, path: string): (r: Result<Json, LoadError>)
    ensures r == Failure(FileNotFound) <==> path !in files
    ensures r.Success? <==> path in files && files[path].Parsed?
    ensures r.Success? ==> r.value == files[path].value
  {
    if path !in files then Failure(FileNotFound)
    else match files[path]
      case Parsed(v) => Success(v)
      case Unparsable => Failure(JsonDecodeError)
  }

  /** Writing with `json.dump` and reading back with `json.load` gives the same document,
      and no other file is touched. */
  lemma DumpThenLoad(files: map<string, Stored>, path: string, value: Json, other: string)
    requires other != path
    ensures LoadJson(files[path := Parsed(value)], path) == Success(value)
    ensures LoadJson(files[path := Parsed(value)], other) == LoadJson(files, other)
  {
  }

  class FileSystem {
    var files: map<string, Stored>

    constructor (files: map<string, Stored>)
      ensures this.files == files
    {
      this.files := files;
    }

    /** `os.path.exists(path)` */
    function Exists(path: string): (b: bool)
      reads this
      ensures b <==> LoadJson(files, path) != Failure(FileNotFound)
    {
      path in files
    }

    method Load(path: string) returns (r: Result<Json, LoadError>)
      ensures r == LoadJson(files, path)
    {
      if path !in files {
        r := Failure(FileNotFound);
      } else if files[path].Unparsable? {
        r := Failure(JsonDecodeError);
      } else {
        r := Success(files[path].value);
      }
    }

    /** `with open(path, 'w') as f: dump(value, f, indent=4)` */
    method Dump(path: string, value: Json)
      modifies this
      ensures files == old(files)[path := Parsed(value)]
      ensures LoadJson(files, path) == Success(value)
    {
      files := files[path := Parsed(value)];
    }
  }
}
