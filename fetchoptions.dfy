// Fetcher configuration and its option functions (pkg/remotefetcher/options.go).
module FetchOptions {
  import opened Wrappers
  import opened Strs

  /** An S3 or HTTP client, known only by identity. */
  datatype Client = Client(id: nat)

  /** A snapshot of the fields of a FetcherConfig. */
  datatype Config = Config(s3Client: Option<Client>, httpClient: Option<Client>, fileType: string, ignoreFileNotFound: bool)

  /** The zero FetcherConfig. */
  const Empty := Config(None, None, "", false)

  datatype FetcherOption =
    | WithS3Client(s3: Client)
    | WithHTTPClient(http: Client)
    | IgnoreFileNotFound
    | WithFileType(fileType: string)

  /** The four fields of FetcherConfig. */
  datatype Field = S3Field | HTTPField | TypeField | IgnoreField

  /** The field an option assigns. */
  function Assigns(o: FetcherOption): Field
  {
    match o
    case WithS3Client(_) => S3Field
    case WithHTTPClient(_) => HTTPField
    case IgnoreFileNotFound => IgnoreField
    case WithFileType(_) => TypeField
  }

  /** The value of one field, so that the fields can be compared uniformly. */
  datatype Value = S3Value(c: Option<Client>) | HTTPValue(c: Option<Client>) | TypeValue(t: string) | IgnoreValue(b: bool)

  function Get(c: Config, f: Field): Value
  {
    match f
    case S3Field => S3Value(c.s3Client)
    case HTTPField => HTTPValue(c.httpClient)
    case TypeField => TypeValue(c.fileType)
    case IgnoreField => IgnoreValue(c.ignoreFileNotFound)
  }

  /** WithFileType: a blank type means "yaml"; any other is kept verbatim. */
  function FileTypeOf(t: string): (r: string)
    ensures TrimSpace(t) == "" ==> r == "yaml"
    ensures TrimSpace(t) != "" ==> r == t
  {
    if TrimSpace(t) == "" then "yaml" else t
  }

  /** The value an option gives the field it assigns. */
  function Assigned(o: FetcherOption): Value
  {
    match o
    case WithS3Client(s3) => S3Value(Some(s3))
    case WithHTTPClient(http) => HTTPValue(Some(http))
    case IgnoreFileNotFound => IgnoreValue(true)
    case WithFileType(t) => TypeValue(FileTypeOf(t))
  }

  /** The effect of one option closure on the configuration. */
  function ApplyOption(c: Config, o: FetcherOption): (r: Config)
    // only the assigned field changes ...
    ensures forall f :: f != Assigns(o) ==> Get(r, f) == Get(c, f)
    // ... and it takes the option's value, whatever it held before
    ensures Get(r, Assigns(o)) == Assigned(o)
    ensures o.WithS3Client? ==> r.s3Client == Some(o.s3)
    ensures o.WithHTTPClient? ==> r.httpClient == Some(o.http)
    ensures o.IgnoreFileNotFound? ==> r.ignoreFileNotFound
    ensures o.WithFileType? ==> r.fileType == FileTypeOf(o.fileType)
  {
    match o
    case WithS3Client(s3) => c.(s3Client := Some(s3))
    case WithHTTPClient(http) => c.(httpClient := Some(http))
    case IgnoreFileNotFound => c.(ignoreFileNotFound := true)
    case WithFileType(t) => c.(fileType := FileTypeOf(t))
  }

  /** The configuration after applying `opts` in sequence. */
  function Configure(c: Config, opts: seq<FetcherOption>): Config
  {
    if opts == [] then c else ApplyOption(Configure(c, opts[..|opts| - 1]), opts[|opts| - 1])
  }

  /** A field no option assigns keeps its value. */
  lemma {:induction false} Untouched(c: Config, opts: seq<FetcherOption>, f: Field)
    requires forall j :: 0 <= j < |opts| ==> Assigns(opts[j]) != f
    ensures Get(Configure(c, opts), f) == Get(c, f)
  {
    if opts != [] {
      Untouched(c, opts[..|opts| - 1], f);
    }
  }

  /** For each field, the last option assigning it wins. */
  lemma {:induction false} LastWins(c: Config, opts: seq<FetcherOption>, i: nat)
    requires i < |opts|
    requires forall j :: i < j < |opts| ==> Assigns(opts[j]) != Assigns(opts[i])
    ensures Get(Configure(c, opts), Assigns(opts[i])) == Assigned(opts[i])
  {
    if i < |opts| - 1 {
      LastWins(c, opts[..|opts| - 1], i);
    }
  }

  class FetcherConfig {
    var s3Client: Option<Client>
    var httpClient: Option<Client>
    var fileType: string
    var ignoreFileNotFound: bool

    function Snapshot(): Config
      reads this
    {
      Config(s3Client, httpClient, fileType, ignoreFileNotFound)
    }

    /** FetcherConfig{}: every field zero. */
    constructor ()
      ensures Snapshot() == Empty
    {
      s3Client := None;
      httpClient := None;
      fileType := "";
      ignoreFileNotFound := false;
    }

    /** Calls one option closure on this configuration. */
    method Apply(o: FetcherOption)
      modifies this
      ensures Snapshot() == ApplyOption(old(Snapshot()), o)
    {
      match o {
        case WithS3Client(s3) => s3Client := Some(s3);
        case WithHTTPClient(http) => httpClient := Some(http);
        case IgnoreFileNotFound => ignoreFileNotFound := true;
        case WithFileType(t) =>
          fileType := t;
          if TrimSpace(t) == "" {
            fileType := "yaml";
          }
      }
    }

    /** The `for _, opt := range options { opt(cfg) }` loop. */
    method ApplyAll(opts: seq<FetcherOption>)
      modifies this
      ensures Snapshot() == Configure(old(Snapshot()), opts)
    {
      var i := 0;
      while i < |opts|
        invariant 0 <= i <= |opts|
        invariant Snapshot() == Configure(old(Snapshot()), opts[..i])
      {
        assert opts[..i + 1][..i] == opts[..i];
        Apply(opts[i]);
        i := i + 1;
      }
      assert opts[..i] == opts;
    }
  }
}
