// The yum package manager (pkg/pkgman/yum/yum.go). The two regular
// expressions of the parser are abstracted as their captured groups.
module Yum {
  import opened PkgCommon
  import Strs

  const DefaultAuthCommand: string := "sudo"

  class YumManager {
    var useAuth: bool
    var authCommand: string

    /** NewYumManager */
    constructor ()
      ensures useAuth && authCommand == DefaultAuthCommand
    {
      useAuth := true;
      authCommand := DefaultAuthCommand;
    }

    /** prependAuthCommand */
    function PrependAuthCommand(baseCmd: string): (r: string)
      reads this
      ensures useAuth ==> r == authCommand + " " + baseCmd
      ensures !useAuth ==> r == baseCmd
    {
      if useAuth then authCommand + " " + baseCmd else baseCmd
    }

    function Install(pkgs: seq<Package>, args: seq<string>): (r: (string, seq<string>))
      reads this
      ensures r.0 == PrependAuthCommand("yum") && r.1 == ["install", "-y"] + Names(pkgs) + args
    {
      (PrependAuthCommand("yum"), ["install", "-y"] + Names(pkgs) + Extra(args))
    }

    function Remove(pkgs: seq<Package>, args: seq<string>): (r: (string, seq<string>))
      reads this
      ensures r.0 == PrependAuthCommand("yum") && r.1 == ["remove", "-y"] + Names(pkgs) + args
    {
      (PrependAuthCommand("yum"), ["remove", "-y"] + Names(pkgs) + Extra(args))
    }

    function Upgrade(pkgs: seq<Package>): (r: (string, seq<string>))
      reads this
      ensures r.0 == PrependAuthCommand("yum") && r.1 == ["update", "-y"] + Names(pkgs)
    {
      (PrependAuthCommand("yum"), ["update", "-y"] + Names(pkgs))
    }

    function UpgradeAll(): (r: (string, seq<string>))
      reads this
      ensures r.0 == PrependAuthCommand("yum") && r.1 == ["update", "-y"]
    {
      (PrependAuthCommand("yum"), ["update", "-y"])
    }

    function CheckVersion(pkgs: seq<Package>): (r: (string, seq<string>))
      reads this
      ensures r.0 == PrependAuthCommand("yum") && r.1 == ["info"] + Names(pkgs)
    {
      (PrependAuthCommand("yum"), ["info"] + Names(pkgs))
    }

    method SetUseAuth(useAuth: bool)
      modifies this
      ensures this.useAuth == useAuth && authCommand == old(authCommand)
    {
      this.useAuth := useAuth;
    }

    method SetAuthCommand(authCommand: string)
      modifies this
      ensures this.authCommand == authCommand && useAuth == old(useAuth)
    {
      this.authCommand := authCommand;
    }
  }

  /**
   * ParseRemotePackageManagerVersionOutput. `installed` and `available` are
   * the (version, release) groups the two expressions capture, if they match.
   * No package is ever returned; only the error list carries information.
   */
  function ParseRemotePackageManagerVersionOutput(output: string, installed: Option2, available: Option2): (r: (seq<Package>, seq<string>))
    ensures r.0 == []
    ensures Strs.Contains(output, "No matching packages to list") ==> r.1 == ["error: package not listed"]
    ensures !Strs.Contains(output, "No matching packages to list") ==>
      (r.1 != [] <==> VersionOf(installed) == "" && VersionOf(available) == "")
  {
    if Strs.Contains(output, "No matching packages to list") then ([], ["error: package not listed"])
    else if VersionOf(installed) == "" && VersionOf(available) == "" then ([], ["failed to parse versions from dnf output"])
    else ([], [])
  }

  /** A regular-expression match: its two capture groups, or no match. */
  datatype Option2 = NoMatch | Groups(version: string, release: string)

  /** `fmt.Sprintf("%s-%s", …)` of the groups, or "" without a match. */
  function VersionOf(m: Option2): (r: string)
    ensures m.Groups? ==> r == m.version + "-" + m.release && r != ""
    ensures m.NoMatch? ==> r == ""
  {
    if m.Groups? then m.version + "-" + m.release else ""
  }
}
