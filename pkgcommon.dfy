// The package records shared by the package managers (pkgcommon.PackageVersion
// and the Package record the managers take).
module PkgCommon {
  datatype PackageVersion = PackageVersion(installed: string, candidate: string, matched: bool, message: string)

  datatype Package = Package(name: string, version: string, versionCheck: PackageVersion)

  /** The package names, in order, as each builder appends them. */
  function Names(pkgs: seq<Package>): (r: seq<string>)
    ensures |r| == |pkgs| && forall k :: 0 <= k < |pkgs| ==> r[k] == pkgs[k].name
  {
    seq(|pkgs|, k requires 0 <= k < |pkgs| => pkgs[k].name)
  }

  /** Go's `append(baseArgs, args...)` under `if args != nil`: a nil slice appends nothing. */
  function Extra(args: seq<string>): seq<string> { args }
}
