// processCmds, processHooks and detectOSType (pkg/backy/config.go): the pass
// that names every command, checks its hooks, attaches its host and builds
// its package or user manager.
module CmdProcessing {
  import opened Wrappers
  import opened Strs
  import opened CommandTypes
  import opened BackyTypes
  import Ssh
  import PkgMan
  import UserMan
  import CommandInfo
  import Config

  // ---------------------------------------------------------------- hooks

  function HookError(cmd: string, kind: string, hook: string): string
  {
    "error in command " + cmd + " hook " + kind + " list: command " + hook + " not found"
  }

  /** The position of the first hook that names no command, or |hooks|. */
  function FirstMissing(hooks: seq<string>, defined: set<string>): (r: nat)
    ensures r <= |hooks|
    ensures forall j :: 0 <= j < r ==> hooks[j] in defined
    ensures r < |hooks| ==> hooks[r] !in defined
  {
    if |hooks| == 0 then 0
    else if hooks[0] !in defined then 0
    else 1 + FirstMissing(hooks[1..], defined)
  }

  /** The commands of the hooks in `hs`, by hook name. */
  function Resolved(hs: seq<string>, cmds: map<string, Command>): map<string, Command>
  {
    map h | h in hs && h in cmds :: cmds[h]
  }

  /** What processHooks returns for one hook list. */
  function HookResult(cmd: string, kind: string, hooks: seq<string>, defined: set<string>): (r: Option<string>)
    ensures r.None? <==> forall j :: 0 <= j < |hooks| ==> hooks[j] in defined
  {
    var n := FirstMissing(hooks, defined);
    if n < |hooks| then Some(HookError(cmd, kind, hooks[n])) else None
  }

  /** The first error of the three hook lists, checked as error, success, final. */
  function HookCheck(cmd: string, hooks: Option<Hooks>, defined: set<string>): Option<string>
  {
    if hooks.None? then None
    else if HookResult(cmd, "error", hooks.value.error, defined).Some? then HookResult(cmd, "error", hooks.value.error, defined)
    else if HookResult(cmd, "success", hooks.value.success, defined).Some? then HookResult(cmd, "success", hooks.value.success, defined)
    else HookResult(cmd, "final", hooks.value.final, defined)
  }

  /** Every hook of every kind must name a command. */
  lemma HookCheckPasses(cmd: string, hooks: Option<Hooks>, defined: set<string>)
    ensures HookCheck(cmd, hooks, defined).None? <==>
            hooks.None? ||
            ((forall j :: 0 <= j < |hooks.value.error| ==> hooks.value.error[j] in defined) &&
             (forall j :: 0 <= j < |hooks.value.success| ==> hooks.value.success[j] in defined) &&
             (forall j :: 0 <= j < |hooks.value.final| ==> hooks.value.final[j] in defined))
  {
  }

  /** A bad error hook is reported before a bad final hook. */
  lemma ErrorHooksFirst(cmd: string, h: Hooks, defined: set<string>)
    requires |h.error| > 0 && h.error[0] !in defined
    ensures HookCheck(cmd, Some(h), defined) == Some(HookError(cmd, "error", h.error[0]))
  {
  }

  /**
   * processHooks: hookRefs is replaced by a map holding only this kind, with
   * the hooks resolved up to the first one that names no command.
   */
  method ProcessHooks(c: Command, hooks: seq<string>, opts: ConfigOpts, kind: string) returns (err: Option<string>)
    modifies c`hookRefs
    ensures err == HookResult(c.name, kind, hooks, opts.cmds.Keys)
    ensures c.hookRefs == map[kind := Resolved(hooks[..FirstMissing(hooks, opts.cmds.Keys)], opts.cmds)]
  {
    c.hookRefs := map[kind := map[]];
    var i := 0;
    while i < |hooks|
      invariant 0 <= i <= |hooks|
      invariant forall j :: 0 <= j < i ==> hooks[j] in opts.cmds
      invariant c.hookRefs == map[kind := Resolved(hooks[..i], opts.cmds)]
      invariant c.Fields() == old(c.Fields())
    {
      var hook := hooks[i];
      assert hooks[..i + 1] == hooks[..i] + [hook];
      if hook !in opts.cmds {
        assert FirstMissing(hooks, opts.cmds.Keys) == i by {
          FirstMissingAt(hooks, opts.cmds.Keys, i);
        }
        return Some(HookError(c.name, kind, hook));
      }
      assert Resolved(hooks[..i + 1], opts.cmds) == Resolved(hooks[..i], opts.cmds)[hook := opts.cmds[hook]] by {
        assert forall h :: h in hooks[..i + 1] <==> h in hooks[..i] || h == hook;
      }
      c.hookRefs := c.hookRefs[kind := c.hookRefs[kind][hook := opts.cmds[hook]]];
      i := i + 1;
    }
    assert hooks[..i] == hooks;
    FirstMissingAt(hooks, opts.cmds.Keys, i);
    err := None;
  }

  /** FirstMissing is the first position whose hook is missing, or the end. */
  lemma {:induction false} FirstMissingAt(hooks: seq<string>, defined: set<string>, i: nat)
    requires i <= |hooks| && forall j :: 0 <= j < i ==> hooks[j] in defined
    requires i < |hooks| ==> hooks[i] !in defined
    ensures FirstMissing(hooks, defined) == i
  {
    if i > 0 {
      FirstMissingAt(hooks[1..], defined, i - 1);
    }
  }

  // ------------------------------------------------------------- OS types

  /** What detectOSType makes of the output of the detection command. */
  function DetectedOS(out: Result<string>, cmd: string): (r: Result<string>)
    ensures out.Err? ==> r == Err(out.msg)
    ensures out.Ok? && TrimSpace(out.value) == "" ==> r == Err("error detecting os for command " + cmd + ": empty string")
    ensures r.Ok? ==> (out.Ok? && r.value != "" &&
              r.value == (if Contains(TrimSpace(out.value), "linux") then "linux" else TrimSpace(out.value)))
  {
    match out
    case Err(e) => Err(e)
    case Ok(o) =>
      var os := TrimSpace(o);
      if os == "" then Err("error detecting os for command " + cmd + ": empty string")
      else if Contains(os, "linux") then Ok("linux")
      else Ok(os)
  }

  /** uname prints "Linux": the match is case sensitive, so that is kept as "Linux". */
  lemma UnameLinux(cmd: string)
    ensures DetectedOS(Ok("Linux\n"), cmd) == Ok("Linux")
  {
    TrimNewline("Linux");
    assert "Linux" + "\n" == "Linux\n";
    CapitalNotLower();
  }

  lemma CapitalNotLower()
    ensures !Contains("Linux", "linux")
  {
    assert "Linux"[..5] == "Linux" != "linux";
  }

  /** Any output mentioning "linux" is recorded as "linux". */
  lemma MentionsLinux(cmd: string)
    ensures DetectedOS(Ok("gnu-linux"), cmd) == Ok("linux")
  {
    var out := "gnu-linux";
    assert out[4..9] == "linux";
    ContainsAt(out, "linux", 4);
    TrimSpaceOfUnspaced(out);
    DetectedLinux(out, cmd);
  }

  lemma DetectedLinux(out: string, cmd: string)
    requires Contains(TrimSpace(out), "linux")
    ensures DetectedOS(Ok(out), cmd) == Ok("linux")
  {
  }

  /** Output ending in a newline trims to the line. */
  lemma TrimNewline(s: string)
    requires |s| > 0 && !IsSpace(s[0]) && !IsSpace(s[|s| - 1])
    ensures TrimSpace(s + "\n") == s
  {
    var t := s + "\n";
    assert TrimLeftSpace(t) == t;
    assert t[..|t| - 1] == s;
    assert TrimRightSpace(t) == TrimRightSpace(s);
    TrimSpaceOfUnspaced(s);
  }

  /** The host half of detectOSType: a host whose OS is known is left alone. */
  method DetectHostOS(cmd: string, host: Ssh.Host, out: Result<string>) returns (err: Option<string>)
    modifies host`os
    ensures old(host.os) != "" ==> err.None? && host.os == old(host.os)
    ensures old(host.os) == "" ==>
              match DetectedOS(out, cmd)
              case Err(e) => err == Some(e) && host.os == old(host.os)
              case Ok(os) => err.None? && host.os == os
    ensures host.State() == old(host.State()).(os := HostOS(cmd, old(host.os), out))
  {
    if host.os != "" {
      return None;
    }
    var os := DetectedOS(out, cmd);
    if os.Err? {
      return Some(os.msg);
    }
    host.os := os.value;
    err := None;
  }

  /**
   * detectOSType as written. A command without a host gets the OS "linux"
   * when the program runs on Linux, and then the host lookup dereferences
   * the nil Host: `crashed` is that panic.
   */
  method DetectOSTypeAsWritten(c: Command, opts: ConfigOpts, goosLinux: bool, detect: string -> Result<string>)
    returns (crashed: bool, err: Option<string>)
    modifies c`os, TargetHosts(c, opts.hosts)`os
    ensures crashed <==> c.host.None?
    ensures crashed ==> c.os == (if goosLinux then "linux" else old(c.os))
    ensures !crashed ==> c.os == old(c.os)
    ensures !crashed && c.host.value in opts.hosts ==>
              err == DetectOutcome(c.name, old(opts.hosts[c.host.value].os), detect(c.host.value))
    ensures TargetDetected(opts.hosts, !crashed, c.host, c.name, detect)
    ensures forall k :: k in opts.hosts && TargetHosts(c, opts.hosts) != {opts.hosts[k]} ==> opts.hosts[k].State() == old(opts.hosts[k].State())
  {
    if c.host.None? {
      if goosLinux {
        c.os := "linux";
      }
      return true, None;
    }
    crashed := false;
    err := None;
    var h := c.host.value;
    if h in opts.hosts {
      err := DetectHostOS(c.name, opts.hosts[h], detect(h));
    }
  }

  /** The error detectOSType returns for a host whose OS was `os0`. */
  function DetectOutcome(cmd: string, os0: string, out: Result<string>): Option<string>
  {
    if os0 != "" then None
    else match DetectedOS(out, cmd)
      case Err(e) => Some(e)
      case Ok(_) => None
  }

  /**
   * detectOSType with the nil check it evidently intends: a command without
   * a host only gets the local OS, a command with a configured host gets the
   * host's OS detected when it is not known yet.
   */
  method DetectOSType(c: Command, opts: ConfigOpts, goosLinux: bool, detect: string -> Result<string>)
    returns (err: Option<string>)
    modifies c`os, TargetHosts(c, opts.hosts)`os
    ensures c.host.None? ==> err.None? && c.os == (if goosLinux then "linux" else old(c.os))
    ensures c.host.Some? ==> c.os == old(c.os)
    ensures c.host.Some? && c.host.value in opts.hosts ==>
              err == DetectOutcome(c.name, old(opts.hosts[c.host.value].os), detect(c.host.value))
    ensures c.host.Some? && c.host.value !in opts.hosts ==> err.None?
    ensures TargetDetected(opts.hosts, c.host.Some?, c.host, c.name, detect)
    ensures forall k :: k in opts.hosts && TargetHosts(c, opts.hosts) != {opts.hosts[k]} ==> opts.hosts[k].State() == old(opts.hosts[k].State())
  {
    err := None;
    if c.host.None? {
      if goosLinux {
        c.os := "linux";
      }
      return;
    }
    var h := c.host.value;
    if h in opts.hosts {
      err := DetectHostOS(c.name, opts.hosts[h], detect(h));
    }
  }

  /** The host detectOSType looks up for a command, as a frame: the configured host of its Host name, if any. */
  function TargetHosts(c: Command, hosts: map<string, Ssh.Host>): (r: set<Ssh.Host>)
    reads c`host
    ensures c.host.Some? && c.host.value in hosts ==> r == {hosts[c.host.value]}
    ensures !(c.host.Some? && c.host.value in hosts) ==> r == {}
  {
    if c.host.Some? && c.host.value in hosts then {hosts[c.host.value]} else {}
  }

  /**
   * The looked-up host after an OS detection that ran iff `ran`: it gets
   * HostOS of the OS it had, and no other field of it changes. (The
   * callers' frames name only this host's OS, so no other host changes.)
   */
  twostate predicate TargetDetected(hosts: map<string, Ssh.Host>, ran: bool, host: Option<string>, cmd: string, detect: string -> Result<string>)
    reads hosts.Values
  {
    host.Some? && host.value in hosts ==>
      hosts[host.value].State() ==
      old(hosts[host.value].State()).(os := if ran then HostOS(cmd, old(hosts[host.value].os), detect(host.value)) else old(hosts[host.value].os))
  }

  /** A host that processCmds added as &Host{Host: k}: no field but Host is set, except the OS that detection may set. */
  predicate AddedHost(t: Ssh.Host, k: string)
    reads t
  {
    && t.host == k && t.hostName == "" && t.port == 0 && t.user == "" && t.clientUser == ""
    && t.privateKeyPath == "" && t.knownHostsFile == "" && t.proxyJump == "" && t.proxyHost == [] && !t.isProxyHost
  }

  /** The OS a host has after detection. */
  function HostOS(cmd: string, os0: string, out: Result<string>): (r: string)
    ensures os0 != "" ==> r == os0
    ensures r != "" <==> os0 != "" || DetectedOS(out, cmd).Ok?
  {
    if os0 != "" then os0
    else match DetectedOS(out, cmd)
      case Err(_) => os0
      case Ok(os) => os
  }

  // -------------------------------------------------------------- hosts

  /** The host step of processCmds: a configured host is shared, an unknown one is added. */
  method ResolveCmdHost(c: Command, opts: ConfigOpts)
    requires c.host.Some?
    modifies c`remoteHost, opts`hosts
    ensures var h := c.host.value;
      && h in opts.hosts && c.remoteHost.Some?
      && (h in old(opts.hosts) ==> opts.hosts == old(opts.hosts) && c.remoteHost == Some(opts.hosts[h]))
      && (h !in old(opts.hosts) ==>
            && opts.hosts.Keys == old(opts.hosts).Keys + {h}
            && (forall k :: k in old(opts.hosts) ==> opts.hosts[k] == old(opts.hosts)[k])
            && fresh(opts.hosts[h]) && fresh(c.remoteHost.value) && c.remoteHost.value != opts.hosts[h]
            && AddedHost(opts.hosts[h], h) && opts.hosts[h].os == ""
            && c.remoteHost.value.State() == Ssh.HostState(h, "", 0, "", "", "", "", "", [], false, ""))
    ensures c.hookRefs == old(c.hookRefs)
    ensures opts.cmds == old(opts.cmds) && opts.lists == old(opts.lists) && opts.Options() == old(opts.Options())
  {
    var h := c.host.value;
    if h in opts.hosts {
      c.remoteHost := Some(opts.hosts[h]);
    } else {
      var added := new Ssh.Host(h);
      opts.hosts := opts.hosts[h := added];
      var own := new Ssh.Host(h);
      c.remoteHost := Some(own);
    }
  }

  // ------------------------------------------------------------ packages

  /** The error processCmds returns for a package command, if any. */
  function PackageCheck(manager: string, operation: string, packageName: string, cmd: string): Option<string>
  {
    if manager == "" then Some("package manager is required for package command " + packageName)
    else if operation == "" then Some("package operation is required for package command " + packageName)
    else if packageName == "" then Some("package name is required for package command " + packageName)
    else if !CommandInfo.PackageOperation(operation) then Some("unsupported package operation " + operation + " for command " + cmd)
    else if !(manager == "apt" || manager == "yum" || manager == "dnf") then Some("unsupported package manager: " + manager)
    else None
  }

  /** A package command passes iff it names a known manager, a known operation and a package. */
  lemma PackageCheckPasses(manager: string, operation: string, packageName: string, cmd: string)
    ensures PackageCheck(manager, operation, packageName, cmd).None? <==>
            (manager == "apt" || manager == "yum" || manager == "dnf") && CommandInfo.PackageOperation(operation) && packageName != ""
  {
  }

  /** The package step of processCmds: the manager is built without sudo. */
  method CheckPackage(c: Command) returns (err: Option<string>)
    modifies c`pkgMan
    ensures err == PackageCheck(c.packageManager, c.packageOperation, c.packageName, c.name)
    ensures err.None? ==> c.pkgMan.Some? && fresh(PkgMan.Object(c.pkgMan.value))
    ensures err.None? ==> (c.packageManager == "apt" <==> c.pkgMan.value.AptM?) && (c.packageManager == "yum" <==> c.pkgMan.value.YumM?)
    ensures err.None? ==> !PkgMan.UseAuth(c.pkgMan.value)
  {
    if c.packageManager == "" {
      return Some("package manager is required for package command " + c.packageName);
    }
    if c.packageOperation == "" {
      return Some("package operation is required for package command " + c.packageName);
    }
    if c.packageName == "" {
      return Some("package name is required for package command " + c.packageName);
    }
    if CommandInfo.PackageOperation(c.packageOperation) {
      var r := PkgMan.PackageManagerFactory(c.packageManager, [PkgMan.WithoutAuth]);
      PkgMan.LastOptionWins((true, "sudo"), [PkgMan.WithoutAuth]);
      if r.Err? {
        c.pkgMan := None;
        return Some(r.msg);
      }
      c.pkgMan := Some(r.value);
      err := None;
    } else {
      return Some("unsupported package operation " + c.packageOperation + " for command " + c.name);
    }
  }

  // ---------------------------------------------------------------- users

  /** The error processCmds returns for a user command whose manager is built for `os`. */
  function UserCheck(username: string, operation: string, cmd: string, os: string): Option<string>
  {
    if username == "" then Some("username is required for user command " + cmd)
    else if !CommandInfo.UserOperation(operation) then Some("unsupported user operation " + operation + " for command " + cmd)
    else if UserMan.NewUserManager(os).Err? then Some(UserMan.NewUserManager(os).msg)
    else None
  }

  /** A user command passes iff it names a user, a known operation, and its OS is Linux. */
  lemma UserCheckPasses(username: string, operation: string, cmd: string, os: string)
    ensures UserCheck(username, operation, cmd, os).None? <==>
            username != "" && CommandInfo.UserOperation(operation) && (os == "linux" || os == "Linux")
  {
  }

  /** The OS the user manager is built for: the host's when the command has a configured host. */
  function OsUsed(c: Command, hosts: map<string, Ssh.Host>): string
    reads c, if c.host.Some? && c.host.value in hosts then {hosts[c.host.value]} else {}
  {
    if c.host.Some? && c.host.value in hosts then hosts[c.host.value].os else c.os
  }

  /** A user command with a username and no host: detectOSType dereferences its nil Host. */
  predicate UserCrashes(c: Command)
    reads c`host
  {
    c.ctype == UserCT && c.username != "" && c.host.None?
  }

  /**
   * The user step of processCmds, over detectOSType as written: a command
   * with a username and no host crashes there; otherwise the error of the
   * OS detection is dropped.
   */
  method CheckUser(c: Command, opts: ConfigOpts, goosLinux: bool, detect: string -> Result<string>)
    returns (crashed: bool, err: Option<string>)
    modifies c`userMan, c`os, TargetHosts(c, opts.hosts)`os
    ensures crashed <==> c.username != "" && c.host.None?
    ensures !crashed ==> c.os == old(c.os)
    ensures TargetDetected(opts.hosts, c.username != "" && !crashed, c.host, c.name, detect)
    ensures crashed ==> err.None?
    ensures !crashed ==> err == UserCheck(c.username, c.userOperation, c.name, OsUsed(c, opts.hosts))
    ensures !crashed && err.None? ==> c.userMan == Some(UserMan.LinuxUserManager)
  {
    if c.username == "" {
      return false, Some("username is required for user command " + c.name);
    }
    var detectErr;
    crashed, detectErr := DetectOSTypeAsWritten(c, opts, goosLinux, detect);
    if crashed {
      return true, None;
    }
    err := BuildUserManager(c, opts);
  }

  /** The user manager of a user command with a username, built for the OS that OsUsed names. */
  method BuildUserManager(c: Command, opts: ConfigOpts) returns (err: Option<string>)
    requires c.username != ""
    modifies c`userMan
    ensures err == UserCheck(c.username, c.userOperation, c.name, OsUsed(c, opts.hosts))
    ensures err.None? ==> c.userMan == Some(UserMan.LinuxUserManager)
  {
    if CommandInfo.UserOperation(c.userOperation) {
      var r := UserMan.NewUserManager(c.os);
      if c.host.Some? {
        if c.host.value in opts.hosts {
          r := UserMan.NewUserManager(opts.hosts[c.host.value].os);
        }
      }
      c.userMan := if r.Ok? then Some(r.value) else None;
      if r.Err? {
        return Some(r.msg);
      }
      err := None;
    } else {
      return Some("unsupported user operation " + c.userOperation + " for command " + c.name);
    }
  }

  // --------------------------------------------------------- processCmds

  /** What processCmds leaves behind for a command it accepts. */
  predicate Processed(c: Command, key: string, hosts: map<string, Ssh.Host>)
    reads c
  {
    && (c.name == "" ==> key == "")
    && (c.hooks.Some? ==> c.hookRefs.Keys == {"final"})
    && CommandInfo.Ready(c)
    && (c.ctype == UserCT ==> c.userMan.Some?)
    && (c.host.Some? ==> c.remoteHost.Some? && c.host.value in hosts)
  }

  /** The hook step of processCmds for one command. */
  method ResolveHooks(c: Command, opts: ConfigOpts) returns (err: Option<string>)
    modifies c`hookRefs
    ensures err == HookCheck(c.name, c.hooks, opts.cmds.Keys)
    ensures c.hooks.Some? && err.None? ==> c.hookRefs == map["final" := Resolved(c.hooks.value.final, opts.cmds)]
    ensures c.hooks.None? ==> c.hookRefs == old(c.hookRefs)
  {
    if c.hooks.None? {
      return None;
    }
    err := ProcessHooks(c, c.hooks.value.error, opts, "error");
    if err.Some? {
      return;
    }
    err := ProcessHooks(c, c.hooks.value.success, opts, "success");
    if err.Some? {
      return;
    }
    err := ProcessHooks(c, c.hooks.value.final, opts, "final");
    if err.None? {
      assert c.hooks.value.final[..FirstMissing(c.hooks.value.final, opts.cmds.Keys)] == c.hooks.value.final;
    }
  }

  /** The error of the package or user step of processCmds. */
  function TargetError(c: Command, hosts: map<string, Ssh.Host>): Option<string>
    reads c, if c.host.Some? && c.host.value in hosts then {hosts[c.host.value]} else {}
  {
    if c.ctype == PackageCT then PackageCheck(c.packageManager, c.packageOperation, c.packageName, c.name)
    else if c.ctype == UserCT then UserCheck(c.username, c.userOperation, c.name, OsUsed(c, hosts))
    else None
  }

  /** processCmds panics on this command: its hooks resolve and it is a user command without a host. */
  predicate Crashes(c: Command, defined: set<string>)
    reads c`name, c`host
  {
    HookCheck(c.name, c.hooks, defined).None? && UserCrashes(c)
  }

  /** The error processCmds returns for one command. */
  function CmdError(c: Command, defined: set<string>, hosts: map<string, Ssh.Host>): Option<string>
    reads c, if c.host.Some? && c.host.value in hosts then {hosts[c.host.value]} else {}
  {
    var hk := HookCheck(c.name, c.hooks, defined);
    if hk.Some? then hk else TargetError(c, hosts)
  }

  /** The package or user step of processCmds, for a command with its host attached. */
  method ProcessTarget(opts: ConfigOpts, c: Command, goosLinux: bool, detect: string -> Result<string>)
    returns (crashed: bool, err: Option<string>)
    requires HookCheck(c.name, c.hooks, opts.cmds.Keys).None?
    modifies c`pkgMan, c`userMan, c`os, TargetHosts(c, opts.hosts)`os
    ensures crashed <==> Crashes(c, opts.cmds.Keys)
    ensures crashed ==> err.None?
    ensures !crashed ==> err == CmdError(c, opts.cmds.Keys, opts.hosts) && c.os == old(c.os)
    ensures !crashed && err.None? ==> CommandInfo.Ready(c) && (c.ctype == UserCT ==> c.userMan.Some?)
    ensures TargetDetected(opts.hosts, DetectsAfterHooks(c, opts.cmds.Keys) && !crashed, c.host, c.name, detect)
  {
    crashed, err := false, None;
    if c.ctype == PackageCT {
      err := CheckPackage(c);
    } else if c.ctype == UserCT {
      crashed, err := CheckUser(c, opts, goosLinux, detect);
    }
  }

  /** processCmds runs detectOSType for this command, once its hooks resolve. */
  predicate Detects(c: Command)
  {
    c.ctype == UserCT && c.username != ""
  }

  /** processCmds reaches detectOSType for this command: its hooks resolve and it is a user command with a username. */
  predicate DetectsAfterHooks(c: Command, defined: set<string>)
    reads c`name
  {
    HookCheck(c.name, c.hooks, defined).None? && Detects(c)
  }

  /** One turn of the loop of processCmds, for the command under `key`. */
  method ProcessCmd(opts: ConfigOpts, key: string, c: Command, goosLinux: bool, detect: string -> Result<string>)
    returns (crashed: bool, err: Option<string>)
    modifies c`name, c`hookRefs, c`remoteHost, c`pkgMan, c`userMan, c`os, opts`hosts, TargetHosts(c, opts.hosts)`os
    ensures c.name == if old(c.name) == "" then key else old(c.name)
    ensures crashed <==> Crashes(c, opts.cmds.Keys)
    ensures crashed ==> err.None?
    ensures !crashed ==> err == CmdError(c, opts.cmds.Keys, opts.hosts)
    ensures opts.cmds == old(opts.cmds) && opts.lists == old(opts.lists) && opts.Options() == old(opts.Options())
    ensures forall k :: k in old(opts.hosts) ==> k in opts.hosts && opts.hosts[k] == old(opts.hosts)[k]
    ensures TargetDetected(old(opts.hosts), DetectsAfterHooks(c, opts.cmds.Keys) && !crashed, c.host, c.name, detect)
    ensures forall k :: k in opts.hosts && k !in old(opts.hosts) ==>
      fresh(opts.hosts[k]) && c.host == Some(k) &&
      AddedHost(opts.hosts[k], k) &&
      opts.hosts[k].os == (if DetectsAfterHooks(c, opts.cmds.Keys) then HostOS(c.name, "", detect(k)) else "")
    ensures !crashed && err.None? ==> Processed(c, key, opts.hosts)
  {
    if c.name == "" {
      c.name := key;
    }
    crashed, err := ProcessNamed(opts, c, goosLinux, detect);
  }

  /** ProcessCmd once the command has its name: the hook step, then the host and target steps. */
  method ProcessNamed(opts: ConfigOpts, c: Command, goosLinux: bool, detect: string -> Result<string>)
    returns (crashed: bool, err: Option<string>)
    modifies c`hookRefs, c`remoteHost, c`pkgMan, c`userMan, c`os, opts`hosts, TargetHosts(c, opts.hosts)`os
    ensures crashed <==> Crashes(c, opts.cmds.Keys)
    ensures crashed ==> err.None?
    ensures !crashed ==> err == CmdError(c, opts.cmds.Keys, opts.hosts)
    ensures opts.cmds == old(opts.cmds) && opts.lists == old(opts.lists) && opts.Options() == old(opts.Options())
    ensures forall k :: k in old(opts.hosts) ==> k in opts.hosts && opts.hosts[k] == old(opts.hosts)[k]
    ensures TargetDetected(old(opts.hosts), DetectsAfterHooks(c, opts.cmds.Keys) && !crashed, c.host, c.name, detect)
    ensures forall k :: k in opts.hosts && k !in old(opts.hosts) ==>
      fresh(opts.hosts[k]) && c.host == Some(k) &&
      AddedHost(opts.hosts[k], k) &&
      opts.hosts[k].os == (if DetectsAfterHooks(c, opts.cmds.Keys) then HostOS(c.name, "", detect(k)) else "")
    ensures !crashed && err.None? ==> Processed(c, c.name, opts.hosts)
  {
    crashed := false;
    err := ResolveHooks(c, opts);
    if err.Some? {
      return;
    }
    crashed, err := AttachAndCheck(opts, c, goosLinux, detect);
  }

  /** The host and target steps of processCmds for one command. */
  method AttachAndCheck(opts: ConfigOpts, c: Command, goosLinux: bool, detect: string -> Result<string>)
    returns (crashed: bool, err: Option<string>)
    requires HookCheck(c.name, c.hooks, opts.cmds.Keys).None?
    modifies c`remoteHost, c`pkgMan, c`userMan, c`os, opts`hosts, TargetHosts(c, opts.hosts)`os
    ensures crashed <==> Crashes(c, opts.cmds.Keys)
    ensures crashed ==> err.None?
    ensures !crashed ==> err == CmdError(c, opts.cmds.Keys, opts.hosts) && c.os == old(c.os)
    ensures !crashed && err.None? ==> CommandInfo.Ready(c) && (c.ctype == UserCT ==> c.userMan.Some?)
    ensures c.host.Some? ==> c.remoteHost.Some? && c.host.value in opts.hosts
    ensures opts.cmds == old(opts.cmds) && opts.lists == old(opts.lists) && opts.Options() == old(opts.Options())
    ensures forall k :: k in old(opts.hosts) ==> k in opts.hosts && opts.hosts[k] == old(opts.hosts)[k]
    ensures TargetDetected(old(opts.hosts), DetectsAfterHooks(c, opts.cmds.Keys) && !crashed, c.host, c.name, detect)
    ensures forall k :: k in opts.hosts && k !in old(opts.hosts) ==>
      fresh(opts.hosts[k]) && c.host == Some(k) && AddedHost(opts.hosts[k], k) &&
      opts.hosts[k].os == (if DetectsAfterHooks(c, opts.cmds.Keys) then HostOS(c.name, "", detect(k)) else "")
  {
    if c.host.Some? {
      ResolveCmdHost(c, opts);
    }
    crashed, err := ProcessTarget(opts, c, goosLinux, detect);
  }

  /** No two keys of the command map share a Command. */
  predicate DistinctCmds(cmds: map<string, Command>)
  {
    forall a, b :: a in cmds && b in cmds && a != b ==> cmds[a] != cmds[b]
  }

  /**
   * processCmds over the commands in `keys` order: the first error or panic
   * stops the pass, and without one every command is named and resolved;
   * a command that would panic is reached only through an earlier error.
   */
  method ProcessCmds(opts: ConfigOpts, keys: seq<string>, goosLinux: bool, detect: string -> Result<string>)
    returns (crashed: bool, err: Option<string>)
    requires Config.Enumerates(keys, opts.cmds) && DistinctCmds(opts.cmds)
    modifies opts, opts.cmds.Values, opts.hosts.Values`os
    ensures crashed ==> err.None? && exists k :: k in opts.cmds && Crashes(opts.cmds[k], opts.cmds.Keys)
    ensures !crashed && err.None? ==>
              forall k :: k in opts.cmds ==> Processed(opts.cmds[k], k, opts.hosts) && !Crashes(opts.cmds[k], opts.cmds.Keys)
    ensures err.Some? ==> !crashed && exists k :: k in opts.cmds && err == CmdError(opts.cmds[k], opts.cmds.Keys, opts.hosts)
    ensures opts.cmds == old(opts.cmds) && opts.lists == old(opts.lists) && opts.Options() == old(opts.Options())
    ensures forall k :: k in old(opts.hosts) ==> k in opts.hosts && opts.hosts[k] == old(opts.hosts)[k]
    ensures forall k :: k in old(opts.hosts) && old(opts.hosts[k].os) != "" ==> opts.hosts[k].os == old(opts.hosts[k].os)
    ensures forall k :: k in opts.hosts && k !in old(opts.hosts) ==> fresh(opts.hosts[k]) && AddedHost(opts.hosts[k], k)
  {
    var i := 0;
    while i < |keys|
      invariant 0 <= i <= |keys|
      invariant opts.cmds == old(opts.cmds) && opts.lists == old(opts.lists) && opts.Options() == old(opts.Options())
      invariant forall k :: k in old(opts.hosts) ==> k in opts.hosts && opts.hosts[k] == old(opts.hosts)[k]
      invariant forall k :: k in old(opts.hosts) && old(opts.hosts[k].os) != "" ==> opts.hosts[k].os == old(opts.hosts[k].os)
      invariant forall k :: k in opts.hosts && k !in old(opts.hosts) ==> fresh(opts.hosts[k]) && AddedHost(opts.hosts[k], k)
      invariant ProcessedUpTo(opts.cmds, keys, i, opts.hosts)
    {
      crashed, err := ProcessStep(opts, keys, i, goosLinux, detect);
      if crashed || err.Some? {
        return;
      }
      i := i + 1;
    }
    crashed, err := false, None;
    assert forall k :: k in opts.cmds ==> exists j :: 0 <= j < |keys| && keys[j] == k;
  }

  /** The commands of the first i keys are processed and do not panic. */
  predicate ProcessedUpTo(cmds: map<string, Command>, keys: seq<string>, i: nat, hosts: map<string, Ssh.Host>)
    requires forall j :: 0 <= j < |keys| ==> keys[j] in cmds
    reads cmds.Values
  {
    forall j :: 0 <= j < i && j < |keys| ==> Processed(cmds[keys[j]], keys[j], hosts) && !Crashes(cmds[keys[j]], cmds.Keys)
  }

  /** One turn of the loop of processCmds: the command of keys[i] is processed, and the earlier ones stay processed. */
  method ProcessStep(opts: ConfigOpts, keys: seq<string>, i: nat, goosLinux: bool, detect: string -> Result<string>)
    returns (crashed: bool, err: Option<string>)
    requires Config.Enumerates(keys, opts.cmds) && DistinctCmds(opts.cmds) && i < |keys|
    requires ProcessedUpTo(opts.cmds, keys, i, opts.hosts)
    modifies opts`hosts, opts.cmds[keys[i]], TargetHosts(opts.cmds[keys[i]], opts.hosts)`os
    ensures opts.cmds == old(opts.cmds) && opts.lists == old(opts.lists) && opts.Options() == old(opts.Options())
    ensures forall k :: k in old(opts.hosts) ==> k in opts.hosts && opts.hosts[k] == old(opts.hosts)[k]
    ensures forall k :: k in opts.hosts && k !in old(opts.hosts) ==> fresh(opts.hosts[k]) && AddedHost(opts.hosts[k], k)
    ensures forall k :: k in old(opts.hosts) && old(AddedHost(opts.hosts[k], k)) ==> AddedHost(opts.hosts[k], k)
    ensures forall k :: k in old(opts.hosts) && old(opts.hosts[k].os) != "" ==> opts.hosts[k].os == old(opts.hosts[k].os)
    ensures crashed ==> err.None? && Crashes(opts.cmds[keys[i]], opts.cmds.Keys)
    ensures err.Some? ==> !crashed && err == CmdError(opts.cmds[keys[i]], opts.cmds.Keys, opts.hosts)
    ensures !crashed && err.None? ==> ProcessedUpTo(opts.cmds, keys, i + 1, opts.hosts)
  {
    var key := keys[i];
    var c := opts.cmds[key];
    crashed, err := ProcessCmd(opts, key, c, goosLinux, detect);
    if !crashed && err.None? {
      forall j | 0 <= j < i + 1
        ensures Processed(opts.cmds[keys[j]], keys[j], opts.hosts) && !Crashes(opts.cmds[keys[j]], opts.cmds.Keys)
      {
        if j < i {
          assert opts.cmds[keys[j]] != c;
          assert old(Processed(opts.cmds[keys[j]], keys[j], opts.hosts));
        }
      }
    }
  }

  /** processHooks starts a fresh map on every call, so a command with hooks keeps only its final hooks. */
  lemma OnlyFinalHooksKept(c: Command, key: string, hosts: map<string, Ssh.Host>)
    requires Processed(c, key, hosts) && c.hooks.Some?
    ensures "error" !in c.hookRefs && "success" !in c.hookRefs
  {
  }
}
