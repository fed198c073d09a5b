// The dnf package manager (pkg/pkgman/dnf/dnf.go): one package per call,
// with an optional version suffix. The parser's regular expressions are
// abstracted as their captured groups.
module Dnf {
  import opened Wrappers
  import opened PkgCommon
  import Strs
  import Yum

  const DefaultAuthCommand: string := "sudo"

  /** `pkg-version` when a version is given, else `pkg`. */
  function Versioned(pkg: string, version: string): (r: string)
    ensures version == "" ==> r == pkg
    ensures version != "" ==> r == pkg + "-" + version
  {
    if version != "" then pkg + "-" + version else pkg
  }

  class DnfManager {
    var useAuth: bool
    var authCommand: string

    /** NewDnfManager */
    constructor ()
      ensures useAuth && authCommand == DefaultAuthCommand
    {
      useAuth := true;
      authCommand := DefaultAuthCommand;
    }

    /** prependAuthCommand */
    function PrependAuthCommand(baseCmd: string): (r: string)
      reads this
      ensures useAuth ==> r == authCommand + " " + baseCmd
      ensures !useAuth ==> r == baseCmd
    {
      if useAuth then authCommand + " " + baseCmd else baseCmd
    }

    function Install(pkg: string, version: string, args: seq<string>): (r: (string, seq<string>))
      reads this
      ensures r.0 == PrependAuthCommand("dnf")
      ensures r.1 == ["install", "-y", Versioned(pkg, version)] + args
    {
      (PrependAuthCommand("dnf"), ["install", "-y", Versioned(pkg, version)] + Extra(args))
    }

    function Remove(pkg: string, args: seq<string>): (r: (string, seq<string>))
      reads this
      ensures r.0 == PrependAuthCommand("dnf") && r.1 == ["remove", "-y", pkg] + args
    {
      (PrependAuthCommand("dnf"), ["remove", "-y", pkg] + Extra(args))
    }

    function Upgrade(pkg: string, version: string): (r: (string, seq<string>))
      reads this
      ensures r.0 == PrependAuthCommand("dnf") && r.1 == ["update", "-y", Versioned(pkg, version)]
    {
      (PrependAuthCommand("dnf"), ["update", "-y", Versioned(pkg, version)])
    }

    function UpgradeAll(): (r: (string, seq<string>))
      reads this
      ensures r.0 == PrependAuthCommand("dnf") && r.1 == ["update", "-y"]
    {
      (PrependAuthCommand("dnf"), ["update", "-y"])
    }

    /** The version is not used. */
    function CheckVersion(pkg: string, version: string): (r: (string, seq<string>))
      reads this
      ensures r.0 == PrependAuthCommand("dnf") && r.1 == ["info", pkg]
    {
      (PrependAuthCommand("dnf"), ["info", pkg])
    }

    method SetUseAuth(useAuth: bool)
      modifies this
      ensures this.useAuth == useAuth && authCommand == old(authCommand)
    {
      this.useAuth := useAuth;
    }

    method SetAuthCommand(authCommand: string)
      modifies this
      ensures this.authCommand == authCommand && useAuth == old(useAuth)
    {
      this.authCommand := authCommand;
    }
  }

  /** Parse: the version record assembled from the two matches. */
  function Parse(output: string, installed: Yum.Option2, available: Yum.Option2): (r: Result<PackageVersion>)
    ensures Strs.Contains(output, "No matching packages to list") ==> r == Err("error: package not listed")
    ensures !Strs.Contains(output, "No matching packages to list") ==>
      (r.Err? <==> installed.NoMatch? && available.NoMatch?)
    ensures r.Ok? ==> r.value == PackageVersion(Yum.VersionOf(installed), Yum.VersionOf(available), false, "")
  {
    if Strs.Contains(output, "No matching packages to list") then Err("error: package not listed")
    else
      var inst := Yum.VersionOf(installed);
      var cand := Yum.VersionOf(available);
      if inst == "" && cand == "" then Err("failed to parse versions from dnf output")
      else Ok(PackageVersion(inst, cand, false, ""))
  }
}
