// The older fetcher factory (pkg/configfetcher): prefix dispatch and S3 source parsing.
module ConfigFetcher {
  import opened Wrappers
  import opened Strs
  import FetchS3

  datatype Kind = HTTPFetcher | S3Fetcher | LocalFetcher

  /** NewConfigFetcher: "http" (which covers "https") first, then "s3", else local. */
  function NewConfigFetcher(source: string): (k: Kind)
    ensures k == HTTPFetcher <==> HasPrefix(source, "http")
    ensures k == S3Fetcher <==> !HasPrefix(source, "http") && HasPrefix(source, "s3")
    ensures k == LocalFetcher <==> !HasPrefix(source, "http") && !HasPrefix(source, "s3")
  {
    if HasPrefix(source, "http") || HasPrefix(source, "https") then HTTPFetcher
    else if HasPrefix(source, "s3") then S3Fetcher
    else LocalFetcher
  }

  /** The "https" test never decides: an https source already starts with "http". */
  lemma HttpsIsHttp(source: string)
    requires HasPrefix(source, "https")
    ensures NewConfigFetcher(source) == HTTPFetcher
  {
    assert source[..4] == source[..5][..4];
  }

  /** parseS3Source: an identical copy of the remote fetcher's parser. */
  function ParseS3Source(source: string): (r: Result<(string, string)>)
    ensures r.Err? <==> '/' !in source
    ensures r.Ok? ==> r.value.0 + "/" + r.value.1 == source && '/' !in r.value.0
    ensures r == FetchS3.ParseS3Source(source)
  {
    FetchS3.ParseS3Source(source)
  }

  /** Empty bucket or empty key halves are accepted. */
  lemma EmptyHalves()
    ensures ParseS3Source("/k") == Ok(("", "k"))
    ensures ParseS3Source("b/") == Ok(("b", ""))
    ensures ParseS3Source("b/k/x") == Ok(("b", "k/x"))
  {
    FetchS3.ParseOfJoined("", "k");
    FetchS3.ParseOfJoined("b", "");
    FetchS3.ParseOfJoined("b", "k/x");
    assert "" + "/" + "k" == "/k";
    assert "b" + "/" + "" == "b/";
    assert "b" + "/" + "k/x" == "b/k/x";
  }
}
