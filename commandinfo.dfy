// The command setter and the package version check of pkg/backy/utils.go:
// getCommandTypeAndSetCommandInfo, parsePackageVersion and
// getPackageIndexFromCommand.
module CommandInfo {
  import opened Wrappers
  import opened CommandTypes
  import opened PkgCommon
  import PkgMan
  import LinuxUsers
  import opened BackyTypes

  // ------------------------------------------------------- package commands

  /** The package operations the setter and processCmds know. */
  predicate PackageOperation(op: string)
  {
    op == "install" || op == "remove" || op == "upgrade" || op == "checkVersion"
  }

  /**
   * The call `command.pkgMan.<Op>(…)`. The call site passes a package list
   * (and, for install and remove, the command's arguments), which is apt's
   * and yum's signature; dnf's builders take one package and a version, so
   * a dnf manager builds nothing here.
   */
  function PackageCall(m: PkgMan.Manager, op: string, pkgs: seq<Package>, args: seq<string>): (r: Option<(string, seq<string>)>)
    reads PkgMan.Object(m)
    ensures r.Some? <==> PackageOperation(op) && !m.DnfM?
  {
    match m
    case AptM(a) =>
      if op == "install" then Some(a.Install(pkgs, args))
      else if op == "remove" then Some(a.Remove(pkgs, args))
      else if op == "upgrade" then Some(a.Upgrade(pkgs))
      else if op == "checkVersion" then Some(a.CheckVersion(pkgs))
      else None
    case YumM(y) =>
      if op == "install" then Some(y.Install(pkgs, args))
      else if op == "remove" then Some(y.Remove(pkgs, args))
      else if op == "upgrade" then Some(y.Upgrade(pkgs))
      else if op == "checkVersion" then Some(y.CheckVersion(pkgs))
      else None
    case DnfM(_) => None
  }

  /** Install and remove carry the command's own arguments after the package names. */
  lemma PackageCallKeepsArgs(m: PkgMan.Manager, op: string, pkgs: seq<Package>, args: seq<string>)
    requires !m.DnfM? && (op == "install" || op == "remove")
    ensures var r := PackageCall(m, op, pkgs, args);
      r.Some? && |r.value.1| >= |pkgs| + |args| && r.value.1[|r.value.1| - |args|..] == args
      && r.value.1[|r.value.1| - |args| - |pkgs|..|r.value.1| - |args|] == Names(pkgs)
  {
    var r := PackageCall(m, op, pkgs, args).value.1;
    var n := |r|;
    var pre := r[..n - |args| - |pkgs|];
    assert r == pre + Names(pkgs) + args;
  }

  /** The package half of the setter: the first call on a package command builds Cmd and Args. */
  function AfterPackage(i: CmdInfo, ctype: CommandType, m: Option<PkgMan.Manager>, op: string, pkgs: seq<Package>): CmdInfo
    reads if m.Some? then {PkgMan.Object(m.value)} else {}
  {
    if ctype == PackageCT && !i.packageCmdSet then
      var flagged := i.(packageCmdSet := true);
      if m.None? then flagged
      else
        match PackageCall(m.value, op, pkgs, i.args)
        case None => flagged
        case Some(call) => flagged.(cmd := call.0, args := call.1)
    else i
  }

  // ---------------------------------------------------------- user commands

  /** The user settings of a command. */
  datatype UserRequest = UserRequest(
    operation: string, username: string, home: string, shell: string,
    isSystem: bool, createHome: bool, groups: seq<string>)

  /** The user operations processCmds accepts. */
  predicate UserOperation(op: string)
  {
    op == "add" || op == "remove" || op == "modify" || op == "checkIfExists" || op == "delete" || op == "password"
  }

  /**
   * The `AddUser` call as written: UserIsSystem is passed in the createHome
   * position and UserCreateHome in the isSystem position.
   */
  function AddUserCallAsWritten(u: UserRequest, args: seq<string>): (r: (string, seq<string>))
    ensures r.0 == "useradd" && |r.1| > 0 && r.1[|r.1| - 1] == u.username
    ensures u.createHome ==> r.1[0] == "--system"
    ensures u.isSystem ==> |r.1| >= 2 && r.1[|r.1| - 2] == "-m"
  {
    LinuxUsers.AddUser(u.username, u.home, u.shell, u.isSystem, u.createHome, u.groups, args)
  }

  /** The `AddUser` call with each flag in its own position. */
  function AddUserCall(u: UserRequest, args: seq<string>): (string, seq<string>)
  {
    LinuxUsers.AddUser(u.username, u.home, u.shell, u.createHome, u.isSystem, u.groups, args)
  }

  /** A system account without a home directory: as written, useradd is asked for a home and no system account. */
  lemma AddUserFlagsSwapped()
    ensures var u := UserRequest("add", "svc", "", "", true, false, []);
      var asWritten := AddUserCallAsWritten(u, []).1;
      var corrected := AddUserCall(u, []).1;
      "-m" in asWritten && "--system" !in asWritten && "--system" in corrected && "-m" !in corrected
  {
    LinuxUsers.AddUserFlags("svc", "", "", true, false, [], []);
    LinuxUsers.AddUserFlags("svc", "", "", false, true, [], []);
  }

  /** The corrected call asks for a system account iff UserIsSystem, and for a home directory iff UserCreateHome. */
  lemma AddUserCallFlags(u: UserRequest, args: seq<string>)
    requires "--system" !in args && "-m" !in args && u.username != "--system" && u.username != "-m"
    requires u.home != "--system" && u.home != "-m" && u.shell != "--system" && u.shell != "-m"
    requires Strs.Join(u.groups, ",") != "--system" && Strs.Join(u.groups, ",") != "-m"
    ensures var argv := AddUserCall(u, args).1;
      ("--system" in argv <==> u.isSystem) && ("-m" in argv <==> u.createHome)
  {
    LinuxUsers.AddUserFlags(u.username, u.home, u.shell, u.createHome, u.isSystem, u.groups, args);
  }

  /** The user half of the setter; `generated` stands for the generated password. */
  function AfterUser(i: CmdInfo, ctype: CommandType, u: UserRequest, generated: string): CmdInfo
    requires |generated| == 20
  {
    if ctype == UserCT && !i.userCmdSet then UserCall(i.(userCmdSet := true), u, generated) else i
  }

  /** The call the user operation selects, written into the command; an unknown operation leaves it as it is. */
  function UserCall(i: CmdInfo, u: UserRequest, generated: string): (r: CmdInfo)
    requires |generated| == 20
    ensures r.packageCmdSet == i.packageCmdSet && r.userCmdSet == i.userCmdSet
    ensures u.operation == "add" ==>
              && r.cmd == "useradd" && |r.args| > 0 && r.args[|r.args| - 1] == u.username
              && (u.createHome ==> r.args[0] == "--system") && (u.isSystem ==> |r.args| >= 2 && r.args[|r.args| - 2] == "-m")
    ensures u.operation == "modify" ==> r.cmd == "usermod" && |r.args| > 0 && r.args[|r.args| - 1] == u.username
    ensures u.operation == "checkIfExists" ==> r.cmd == "id" && r.args == [u.username]
    ensures u.operation == "delete" ==> r.cmd == "userdel" && r.args == [u.username]
    ensures u.operation == "password" ==>
              && r.cmd == "chpasswd" && r.args == i.args
              && r.userPassword == (if i.userPassword == "" then generated else i.userPassword)
              && r.stdin == Some(u.username + ":" + r.userPassword)
    ensures u.operation != "password" ==> r.stdin == i.stdin && r.userPassword == i.userPassword
    ensures u.operation !in {"add", "modify", "checkIfExists", "delete", "password"} ==> r == i
  {
    if u.operation == "add" then
      var call := AddUserCallAsWritten(u, i.args);
      i.(cmd := call.0, args := call.1)
    else if u.operation == "modify" then
      var call := LinuxUsers.ModifyUser(u.username, u.home, u.shell, u.groups);
      i.(cmd := call.0, args := call.1)
    else if u.operation == "checkIfExists" then
      var call := LinuxUsers.UserExists(u.username);
      i.(cmd := call.0, args := call.1)
    else if u.operation == "delete" then
      var call := LinuxUsers.RemoveUser(u.username);
      i.(cmd := call.0, args := call.1)
    else if u.operation == "password" then
      var call := LinuxUsers.ModifyPassword(u.username, i.userPassword, generated);
      i.(cmd := call.0, stdin := Some(call.1), userPassword := call.2)
    else i
  }

  // ------------------------------------------------------------ the setter

  /** getCommandTypeAndSetCommandInfo, on values. */
  function SetInfo(i: CmdInfo, ctype: CommandType, m: Option<PkgMan.Manager>, op: string, pkgs: seq<Package>,
                   u: UserRequest, generated: string): (r: CmdInfo)
    requires |generated| == 20
    reads if m.Some? then {PkgMan.Object(m.value)} else {}
    ensures ctype == PackageCT ==> r.packageCmdSet && r.userCmdSet == i.userCmdSet
    ensures ctype == UserCT ==> r.userCmdSet && r.packageCmdSet == i.packageCmdSet
  {
    AfterUser(AfterPackage(i, ctype, m, op, pkgs), ctype, u, generated)
  }

  /** The set-flags make a second call change nothing. */
  lemma SetInfoIdempotent(i: CmdInfo, ctype: CommandType, m: Option<PkgMan.Manager>, op: string, pkgs: seq<Package>,
                          u: UserRequest, generated: string)
    requires |generated| == 20
    ensures var once := SetInfo(i, ctype, m, op, pkgs, u, generated);
      SetInfo(once, ctype, m, op, pkgs, u, generated) == once
  {
  }

  /** Commands that are neither package nor user commands are left as they are. */
  lemma OtherTypesUntouched(i: CmdInfo, ctype: CommandType, m: Option<PkgMan.Manager>, op: string, pkgs: seq<Package>,
                            u: UserRequest, generated: string)
    requires |generated| == 20 && ctype != PackageCT && ctype != UserCT
    ensures SetInfo(i, ctype, m, op, pkgs, u, generated) == i
  {
  }

  /** Once the flag of its kind is set, the setter leaves Cmd, Args and stdin alone. */
  lemma FlagStopsRebuild(i: CmdInfo, ctype: CommandType, m: Option<PkgMan.Manager>, op: string, pkgs: seq<Package>,
                         u: UserRequest, generated: string)
    requires |generated| == 20
    requires (ctype == PackageCT ==> i.packageCmdSet) && (ctype == UserCT ==> i.userCmdSet)
    ensures SetInfo(i, ctype, m, op, pkgs, u, generated) == i
  {
  }

  /** A password command: chpasswd with "user:password" on stdin, generating a password only when none is given. */
  lemma PasswordCommand(i: CmdInfo, m: Option<PkgMan.Manager>, op: string, pkgs: seq<Package>, u: UserRequest, generated: string)
    requires |generated| == 20 && !i.userCmdSet && u.operation == "password"
    ensures var r := SetInfo(i, UserCT, m, op, pkgs, u, generated);
      var pw := if i.userPassword == "" then generated else i.userPassword;
      r.cmd == "chpasswd" && r.stdin == Some(u.username + ":" + pw) && r.userPassword == pw && r.args == i.args
  {
  }

  /**
   * An add command: useradd with the existing Args, the user last, and, as
   * written, `-m` iff UserIsSystem and `--system` iff UserCreateHome.
   */
  lemma AddCommand(i: CmdInfo, m: Option<PkgMan.Manager>, op: string, pkgs: seq<Package>, u: UserRequest, generated: string)
    requires |generated| == 20 && !i.userCmdSet && u.operation == "add"
    requires "--system" !in i.args && "-m" !in i.args && u.username != "--system" && u.username != "-m"
    requires u.home != "--system" && u.home != "-m" && u.shell != "--system" && u.shell != "-m"
    requires Strs.Join(u.groups, ",") != "--system" && Strs.Join(u.groups, ",") != "-m"
    ensures var r := SetInfo(i, UserCT, m, op, pkgs, u, generated);
      && r.cmd == "useradd" && r.args == AddUserCallAsWritten(u, i.args).1 && r.args[|r.args| - 1] == u.username
      && ("-m" in r.args <==> u.isSystem) && ("--system" in r.args <==> u.createHome)
      && r.stdin == i.stdin && r.userPassword == i.userPassword && r.userCmdSet
  {
    LinuxUsers.AddUserFlags(u.username, u.home, u.shell, u.isSystem, u.createHome, u.groups, i.args);
  }

  /** processCmds accepts "remove", but the setter builds no command for it: Cmd and Args stay as declared. */
  lemma RemoveBuildsNothing(i: CmdInfo, m: Option<PkgMan.Manager>, op: string, pkgs: seq<Package>, u: UserRequest, generated: string)
    requires |generated| == 20 && !i.userCmdSet && u.operation == "remove"
    ensures UserOperation(u.operation)
    ensures SetInfo(i, UserCT, m, op, pkgs, u, generated) == i.(userCmdSet := true)
  {
  }

  /** The user settings of a command. */
  function Request(c: Command): UserRequest
  {
    UserRequest(c.userOperation, c.username, c.userHome, c.userShell, c.userIsSystem, c.userCreateHome, c.userGroups)
  }

  /** The managers the setter calls are there: processCmds sets them for every operation it accepts. */
  predicate Ready(c: Command)
    reads c
  {
    c.ctype == PackageCT && !c.packageCmdSet && PackageOperation(c.packageOperation) ==> c.pkgMan.Some?
  }

  /** The package half of getCommandTypeAndSetCommandInfo. */
  method SetPackageInfo(c: Command)
    requires Ready(c)
    modifies c`packageCmdSet, c`cmd, c`args
    ensures c.Info() == AfterPackage(old(c.Info()), c.ctype, c.pkgMan, c.packageOperation, c.packages)
  {
    if c.ctype == PackageCT && !c.packageCmdSet {
      c.packageCmdSet := true;
      if c.pkgMan.Some? {
        var call := PackageCall(c.pkgMan.value, c.packageOperation, c.packages, c.args);
        if call.Some? {
          c.cmd, c.args := call.value.0, call.value.1;
        }
      }
    }
  }

  /** The user half of getCommandTypeAndSetCommandInfo. */
  method SetUserInfo(c: Command, generated: string)
    requires |generated| == 20
    modifies c`userCmdSet, c`cmd, c`args, c`stdin, c`userPassword
    ensures c.Info() == AfterUser(old(c.Info()), c.ctype, Request(c), generated)
  {
    if c.ctype == UserCT && !c.userCmdSet {
      c.userCmdSet := true;
      var next := UserCall(c.Info(), Request(c), generated);
      c.cmd, c.args, c.stdin, c.userPassword := next.cmd, next.args, next.stdin, next.userPassword;
    }
  }

  /** getCommandTypeAndSetCommandInfo: Cmd, Args, stdin, UserPassword and the flags change as SetInfo says, and nothing else. */
  method SetCommandInfo(c: Command, generated: string)
    requires |generated| == 20 && Ready(c)
    modifies c`packageCmdSet, c`userCmdSet, c`cmd, c`args, c`stdin, c`userPassword
    ensures c.Info() == SetInfo(old(c.Info()), c.ctype, c.pkgMan, c.packageOperation, c.packages, Request(c), generated)
  {
    SetPackageInfo(c);
    SetUserInfo(c, generated);
  }

  // ------------------------------------------------ package version checks

  /** The index of the first package with this name, or -1. */
  function PackageIndex(pkgs: seq<Package>, name: string): (r: int)
    ensures -1 <= r < |pkgs|
    ensures r == -1 <==> forall k :: 0 <= k < |pkgs| ==> pkgs[k].name != name
    ensures r >= 0 ==> pkgs[r].name == name && forall k :: 0 <= k < r ==> pkgs[k].name != name
  {
    if |pkgs| == 0 then -1
    else if pkgs[0].name == name then 0
    else
      var rest := PackageIndex(pkgs[1..], name);
      if rest == -1 then -1 else rest + 1
  }

  /** getPackageIndexFromCommand */
  method GetPackageIndexFromCommand(pkgs: seq<Package>, name: string) returns (r: int)
    ensures r == PackageIndex(pkgs, name)
  {
    var i := 0;
    while i < |pkgs|
      invariant 0 <= i <= |pkgs|
      invariant forall k :: 0 <= k < i ==> pkgs[k].name != name
    {
      if name == pkgs[i].name {
        return i;
      }
      i := i + 1;
    }
    return -1;
  }

  /** Only names decide the index. */
  lemma {:induction false} IndexByNames(a: seq<Package>, b: seq<Package>, name: string)
    requires |a| == |b| && forall k :: 0 <= k < |a| ==> a[k].name == b[k].name
    ensures PackageIndex(a, name) == PackageIndex(b, name)
  {
    if |a| > 0 && a[0].name != name {
      IndexByNames(a[1..], b[1..], name);
    }
  }

  /**
   * The regular-expression engine: `compile(v)` is the compile error of
   * pattern v, if any; `matches(v, s)` is whether v matches s.
   */
  datatype Regex = Regex(compile: string -> Option<string>, matches: (string, string) -> bool)

  /** The errors one reported package adds, judged against the command's entry for it. */
  function PackageErrors(cmdPkgs: seq<Package>, p: Package, rx: Regex): (r: seq<string>)
    ensures |r| <= 1
  {
    var idx := PackageIndex(cmdPkgs, p.name);
    if idx == -1 then []
    else
      var pc := cmdPkgs[idx];
      if pc.version != "" then
        if rx.compile(pc.version).Some? then [rx.compile(pc.version).value]
        else if p.version == pc.version || rx.matches(pc.version, p.versionCheck.installed) then []
        else ["installed version of " + pc.name + " does not match specified version: " + pc.version]
      else if p.versionCheck.installed == p.versionCheck.candidate then []
      else ["installed and Candidate versions differ"]
  }

  /** The version errors for all reported packages, in order. */
  function VersionErrors(cmdPkgs: seq<Package>, parsed: seq<Package>, rx: Regex): seq<string>
  {
    if |parsed| == 0 then []
    else VersionErrors(cmdPkgs, parsed[..|parsed| - 1], rx) + PackageErrors(cmdPkgs, parsed[|parsed| - 1], rx)
  }

  /** The command's packages once each reported package's VersionCheck is copied in. */
  function CopyChecks(cmdPkgs: seq<Package>, parsed: seq<Package>): (r: seq<Package>)
    ensures |r| == |cmdPkgs|
    ensures forall k :: 0 <= k < |r| ==> r[k].name == cmdPkgs[k].name && r[k].version == cmdPkgs[k].version
  {
    if |parsed| == 0 then cmdPkgs
    else
      var prev := CopyChecks(cmdPkgs, parsed[..|parsed| - 1]);
      var p := parsed[|parsed| - 1];
      var idx := PackageIndex(prev, p.name);
      if idx == -1 then prev else prev[idx := prev[idx].(versionCheck := p.versionCheck)]
  }

  /** A reported package that fails its check. */
  predicate Faulty(cmdPkgs: seq<Package>, p: Package, rx: Regex)
  {
    var idx := PackageIndex(cmdPkgs, p.name);
    idx != -1 &&
    var pc := cmdPkgs[idx];
    if pc.version != "" then
      rx.compile(pc.version).Some? || (p.version != pc.version && !rx.matches(pc.version, p.versionCheck.installed))
    else p.versionCheck.installed != p.versionCheck.candidate
  }

  /** One reported package adds an error iff it is faulty. */
  lemma PackageErrorsIff(cmdPkgs: seq<Package>, p: Package, rx: Regex)
    ensures |PackageErrors(cmdPkgs, p, rx)| > 0 <==> Faulty(cmdPkgs, p, rx)
  {
  }

  /** An error is reported iff some reported package, found in the command, fails its check. */
  lemma {:induction false} VersionErrorsIff(cmdPkgs: seq<Package>, parsed: seq<Package>, rx: Regex)
    ensures |VersionErrors(cmdPkgs, parsed, rx)| > 0 <==> exists j :: 0 <= j < |parsed| && Faulty(cmdPkgs, parsed[j], rx)
  {
    if |parsed| > 0 {
      var init := parsed[..|parsed| - 1];
      var last := parsed[|parsed| - 1];
      VersionErrorsIff(cmdPkgs, init, rx);
      PackageErrorsIff(cmdPkgs, last, rx);
      FaultySnoc(cmdPkgs, parsed, rx);
    }
  }

  lemma FaultySnoc(cmdPkgs: seq<Package>, parsed: seq<Package>, rx: Regex)
    requires |parsed| > 0
    ensures var init := parsed[..|parsed| - 1];
      (exists j :: 0 <= j < |parsed| && Faulty(cmdPkgs, parsed[j], rx)) <==>
      (exists j :: 0 <= j < |init| && Faulty(cmdPkgs, init[j], rx)) || Faulty(cmdPkgs, parsed[|parsed| - 1], rx)
  {
    var init := parsed[..|parsed| - 1];
    if exists j :: 0 <= j < |parsed| && Faulty(cmdPkgs, parsed[j], rx) {
      var j :| 0 <= j < |parsed| && Faulty(cmdPkgs, parsed[j], rx);
      if j < |parsed| - 1 {
        assert init[j] == parsed[j];
      }
    }
    if exists j :: 0 <= j < |init| && Faulty(cmdPkgs, init[j], rx) {
      var j :| 0 <= j < |init| && Faulty(cmdPkgs, init[j], rx);
      assert parsed[j] == init[j];
    }
  }

  /** A reported package the command does not list adds no error and changes no package. */
  lemma UnknownPackageSkipped(cmdPkgs: seq<Package>, parsed: seq<Package>, p: Package, rx: Regex)
    requires forall k :: 0 <= k < |cmdPkgs| ==> cmdPkgs[k].name != p.name
    ensures VersionErrors(cmdPkgs, parsed + [p], rx) == VersionErrors(cmdPkgs, parsed, rx)
    ensures CopyChecks(cmdPkgs, parsed + [p]) == CopyChecks(cmdPkgs, parsed)
  {
    assert (parsed + [p])[..|parsed|] == parsed;
    var prev := CopyChecks(cmdPkgs, parsed);
    IndexByNames(prev, cmdPkgs, p.name);
  }

  /** The checks and errors after one more reported package. */
  lemma ChecksStep(original: seq<Package>, ps: seq<Package>, i: nat, rx: Regex)
    requires i < |ps|
    ensures var prev := CopyChecks(original, ps[..i]); var idx := PackageIndex(prev, ps[i].name);
      CopyChecks(original, ps[..i + 1]) == (if idx == -1 then prev else prev[idx := prev[idx].(versionCheck := ps[i].versionCheck)])
    ensures VersionErrors(original, ps[..i + 1], rx) == VersionErrors(original, ps[..i], rx) + PackageErrors(original, ps[i], rx)
  {
    assert ps[..i + 1][..i] == ps[..i];
    assert ps[..i + 1][i] == ps[i];
  }

  /** One reported package of parsePackageVersion: its check is copied in and its error, if any, appended. */
  method CopyReportedCheck(c: Command, ghost original: seq<Package>, ps: seq<Package>, i: nat, rx: Regex, errs: seq<string>)
    returns (errs': seq<string>)
    requires i < |ps| && c.packages == CopyChecks(original, ps[..i]) && errs == VersionErrors(original, ps[..i], rx)
    modifies c`packages
    ensures c.packages == CopyChecks(original, ps[..i + 1]) && errs' == VersionErrors(original, ps[..i + 1], rx)
  {
    var p := ps[i];
    ChecksStep(original, ps, i, rx);
    IndexByNames(c.packages, original, p.name);
    errs' := errs;
    var idx := GetPackageIndexFromCommand(c.packages, p.name);
    if idx == -1 {
      return;
    }
    c.packages := c.packages[idx := c.packages[idx].(versionCheck := p.versionCheck)];
    var pc := c.packages[idx];
    assert pc.name == original[idx].name && pc.version == original[idx].version;
    if pc.version != "" {
      var compileErr := rx.compile(pc.version);
      if compileErr.Some? {
        errs' := errs' + [compileErr.value];
      } else if p.version == pc.version {
      } else if rx.matches(pc.version, p.versionCheck.installed) {
      } else {
        errs' := errs' + ["installed version of " + pc.name + " does not match specified version: " + pc.version];
      }
    } else {
      if p.versionCheck.installed == p.versionCheck.candidate {
      } else {
        errs' := errs' + ["installed and Candidate versions differ"];
      }
    }
  }

  /**
   * parsePackageVersion. `parsed` is the manager's parse of the output (an
   * error, or the packages it found); the returned errors are those the
   * function joins into its error, which is nil iff there are none.
   */
  method ParsePackageVersion(c: Command, parsed: Result<seq<Package>>, rx: Regex)
    returns (parseErr: Option<string>, errs: seq<string>)
    modifies c`packages
    ensures parsed.Err? ==> parseErr == Some("error parsing package version output: " + parsed.msg)
                            && errs == [] && c.packages == old(c.packages)
    ensures parsed.Ok? ==> parseErr.None? && errs == VersionErrors(old(c.packages), parsed.value, rx)
                           && c.packages == CopyChecks(old(c.packages), parsed.value)
  {
    if parsed.Err? {
      return Some("error parsing package version output: " + parsed.msg), [];
    }
    var ps := parsed.value;
    ghost var original := c.packages;
    parseErr, errs := None, [];
    var i := 0;
    while i < |ps|
      invariant 0 <= i <= |ps|
      invariant c.packages == CopyChecks(original, ps[..i])
      invariant errs == VersionErrors(original, ps[..i], rx)
    {
      errs := CopyReportedCheck(c, original, ps, i, rx, errs);
      i := i + 1;
    }
    assert ps[..i] == ps;
  }
}
