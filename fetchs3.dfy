// The S3 fetcher's source parsing and error mapping (pkg/remotefetcher/s3.go).
// The AWS client is represented by the outcome of GetObject.
module FetchS3 {
  import opened Wrappers
  import opened Strs

  const FormatError := "invalid S3 source format, expected bucket-name/object-key"

  /** ErrFileNotFound, declared in pkg/remotefetcher/configfetcher.go. */
  const ErrFileNotFound := "remotefetcher: file not found"

  /** parseS3Source: the bucket is the text before the first '/', the key the rest. */
  function ParseS3Source(source: string): (r: Result<(string, string)>)
    ensures r.Err? <==> '/' !in source
    ensures r.Err? ==> r.msg == FormatError
    ensures r.Ok? ==> r.value.0 + "/" + r.value.1 == source && '/' !in r.value.0
  {
    var parts := SplitN2(source, '/');
    if |parts| != 2 then Err(FormatError) else Ok((parts[0], parts[1]))
  }

  /** Splitting recovers any bucket without '/' and any key, even one holding '/'. */
  lemma ParseOfJoined(bucket: string, key: string)
    requires '/' !in bucket
    ensures ParseS3Source(bucket + "/" + key) == Ok((bucket, key))
  {
    var s := bucket + "/" + key;
    assert s[..|bucket|] == bucket;
    IndexOfIs(s, '/', |bucket|);
    assert s[|bucket| + 1..] == key;
  }

  /** The outcome of S3Client.GetObject followed by reading the body. */
  datatype GetObject = Body(data: Result<string>) | NoSuchKey(msg: string) | Failed(msg: string)

  /** S3Fetcher.Fetch: a missing key maps to ErrFileNotFound only when ignored. */
  function Fetch(source: string, ignoreFileNotFound: bool, getObject: (string, string) -> GetObject): (r: Result<string>)
    ensures '/' !in source ==> r == Err(FormatError)
    ensures '/' in source ==>
      var bk := ParseS3Source(source).value;
      match getObject(bk.0, bk.1)
      case NoSuchKey(msg) => r == Err(if ignoreFileNotFound then ErrFileNotFound else msg)
      case Failed(msg) => r == Err(msg)
      case Body(data) => r == data
  {
    match ParseS3Source(source)
    case Err(msg) => Err(msg)
    case Ok((bucket, key)) =>
      match getObject(bucket, key)
      case NoSuchKey(msg) => if ignoreFileNotFound then Err(ErrFileNotFound) else Err(msg)
      case Failed(msg) => Err(msg)
      case Body(data) => data
  }
}
