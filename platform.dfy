// Operating-system services the core consults, as uninterpreted values.
module Platform {
  import opened Wrappers
  import opened Strs

  /** The pure helpers of Go's path/filepath package, left uninterpreted. */
  datatype PathOps = PathOps(base: string -> string, join: (string, string) -> string)

  /**
   * What the process sees of its host: os.UserHomeDir (None when it fails),
   * os.Getenv ("" when unset), os.Environ, os.ReadFile (None when it fails)
   * and path.Join / filepath.Join, which clean their result.
   */
  datatype Os = Os(
    home: Option<string>,
    getenv: string -> string,
    environ: seq<string>,
    readFile: string -> Option<string>,
    join: (string, string) -> string)

  /** path.IsAbs */
  predicate IsAbs(p: string) { HasPrefix(p, "/") }
}
