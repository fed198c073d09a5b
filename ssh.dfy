// Host-parameter resolution and the command text of pkg/backy/ssh.go.
// The ssh_config lookups are uninterpreted; connections, sessions and key
// parsing are not part of this model.
module Ssh {
  import opened Wrappers
  import opened Strs
  import opened Platform
  import opened CommandTypes
  import Utils

  /**
   * The lookups a Host's SSH configuration offers: Get on the host's own
   * config file (the error ignored, "" when missing), Get on the default
   * user settings, and GetStrict on the defaults (the error ignored).
   */
  datatype SshConfig = SshConfig(
    fileGet: (string, string) -> string,
    defaultGet: (string, string) -> string,
    defaultGetStrict: (string, string) -> string)

  /** The fields of a Host, as one value. */
  datatype HostState = HostState(
    host: string, hostName: string, port: nat, user: string, clientUser: string,
    privateKeyPath: string, knownHostsFile: string, proxyJump: string,
    proxyHost: seq<Host>, isProxyHost: bool, os: string)

  /** A host of the configuration; resolution fills in its fields in place. */
  class Host {
    var host: string
    var hostName: string
    /** uint16 */
    var port: nat
    var user: string
    /** ClientConfig.User */
    var clientUser: string
    var privateKeyPath: string
    var knownHostsFile: string
    var proxyJump: string
    /** A nil ProxyHost slice is the empty sequence. */
    var proxyHost: seq<Host>
    var isProxyHost: bool
    var os: string

    function State(): HostState
      reads this
    {
      HostState(host, hostName, port, user, clientUser, privateKeyPath, knownHostsFile,
                proxyJump, proxyHost, isProxyHost, os)
    }

    predicate Valid()
      reads this
    {
      port < 0x1_0000
    }

    /** &Host{Host: host} */
    constructor (host: string)
      ensures State() == HostState(host, "", 0, "", "", "", "", "", [], false, "")
      ensures Valid()
    {
      this.host := host;
      hostName := "";
      port := 0;
      user := "";
      clientUser := "";
      privateKeyPath := "";
      knownHostsFile := "";
      proxyJump := "";
      proxyHost := [];
      isProxyHost := false;
      os := "";
    }

    /** GetSshUserFromConfig; `currentUser` is user.Current's user name. */
    method GetSshUserFromConfig(cfg: SshConfig, currentUser: string)
      modifies this
      ensures var u := ResolveUser(old(user), old(host), cfg, currentUser);
              State() == old(State()).(user := u, clientUser := u)
    {
      var u := user;
      if TrimSpace(u) == "" {
        u := cfg.fileGet(host, "User");
        if TrimSpace(u) == "" {
          u := cfg.defaultGet(host, "User");
          if TrimSpace(u) == "" {
            u := currentUser;
          }
        }
      }
      assert u == ResolveUser(user, host, cfg, currentUser);
      user := u;
      clientUser := u;
    }

    /** GetPrivateKeyFileFromConfig; a failed home lookup leaves the trimmed path. */
    method GetPrivateKeyFileFromConfig(cfg: SshConfig, os: Os)
      modifies this
      ensures State() == old(State()).(privateKeyPath := ResolvePrivateKey(old(privateKeyPath), old(host), cfg, os))
    {
      var identityFile := "";
      if privateKeyPath == "" {
        identityFile := cfg.fileGet(host, "IdentityFile");
        if identityFile == "" {
          identityFile := cfg.defaultGetStrict(host, "IdentityFile");
          if identityFile == "" {
            identityFile := "~/.ssh/id_rsa";
          }
        }
      }
      if identityFile == "" {
        identityFile := privateKeyPath;
      }
      privateKeyPath := Utils.FullPath(identityFile, os).path;
    }

    /** GetPort */
    method GetPort(cfg: SshConfig)
      requires Valid()
      modifies this
      ensures Valid()
      ensures State() == old(State()).(port := ResolvePort(old(port), old(host), cfg))
      ensures old(port) != 0 ==> port == old(port)
    {
      var p := NatToString(port);
      if p == "0" {
        p := cfg.fileGet(host, "Port");
        if p == "" {
          p := cfg.defaultGet(host, "Port");
          if p == "" {
            p := "22";
          }
        }
      }
      ghost var before := port;
      port := ParseUint16(p);
      if before != 0 {
        ParsePrinted(before);
      }
    }

    /** CombineHostNameWithPort */
    method CombineHostNameWithPort()
      modifies this
      ensures State() == old(State()).(hostName := CombinedHostName(old(hostName), old(port)))
      ensures HasSuffix(hostName, ":" + NatToString(port))
    {
      var suffix := ":" + NatToString(port);
      if HasSuffix(hostName, suffix) {
        return;
      }
      hostName := hostName + suffix;
      assert hostName[|hostName| - |suffix|..] == suffix;
    }

    /** GetHostName */
    method GetHostName(cfg: SshConfig)
      modifies this
      ensures State() == old(State()).(hostName := ResolveHostName(old(hostName), old(host), cfg))
    {
      if hostName == "" {
        hostName := cfg.fileGet(host, "HostName");
        if hostName == "" {
          hostName := cfg.defaultGet(host, "HostName");
        }
      }
    }

    /** GetKnownHosts: returns whether the path was expanded without error. */
    method GetKnownHosts(os: Os) returns (ok: bool)
      modifies this
      ensures var e := Utils.FullPath(KnownHostsSource(old(knownHostsFile)), os);
              State() == old(State()).(knownHostsFile := e.path) && ok == e.ok
    {
      var e := Utils.FullPath(KnownHostsSource(knownHostsFile), os);
      knownHostsFile := e.path;
      ok := e.ok;
    }

    /**
     * GetProxyJumpFromConfig. `hosts` is the configured host map; the
     * jump host is looked up with the SSH configuration's ProxyJump value.
     */
    method GetProxyJumpFromConfig(cfg: SshConfig, hosts: map<string, Host>)
      modifies this
      ensures var pj := ConfigProxyJump(old(host), cfg);
              var jump := if old(proxyJump) == "" && pj != "" then pj else old(proxyJump);
              var single := |old(proxyHost)| == 0 && |Split(jump, ',')| == 1;
              && host == old(host) && hostName == old(hostName) && port == old(port)
              && user == old(user) && clientUser == old(clientUser)
              && privateKeyPath == old(privateKeyPath) && knownHostsFile == old(knownHostsFile)
              && isProxyHost == old(isProxyHost) && os == old(os)
              && proxyJump == (if single then pj else jump)
              && (!single ==> proxyHost == old(proxyHost))
              && (single && pj in hosts ==> proxyHost == [hosts[pj]])
              && (single && pj !in hosts && pj == "" ==> proxyHost == [])
              && (single && pj !in hosts && pj != "" ==>
                    |proxyHost| == 1 && fresh(proxyHost[0]) && proxyHost[0].State() == HostState(pj, "", 0, "", "", "", "", "", [], false, ""))
    {
      var pj := cfg.fileGet(host, "ProxyJump");
      if pj == "" {
        pj := cfg.defaultGet(host, "ProxyJump");
      }
      if proxyJump == "" && pj != "" {
        proxyJump := pj;
      }
      var jumps := Split(proxyJump, ',');
      if |proxyHost| == 0 && |jumps| == 1 {
        proxyJump := pj;
        if pj in hosts {
          proxyHost := proxyHost + [hosts[pj]];
        } else if pj != "" {
          var newProxy := new Host(pj);
          proxyHost := proxyHost + [newProxy];
        }
      }
    }
  }

  /** The user chain: the explicit user, the config file, the defaults, then the current user. */
  function ResolveUser(user: string, host: string, cfg: SshConfig, currentUser: string): (r: string)
    ensures TrimSpace(user) != "" ==> r == user
    ensures TrimSpace(user) == "" && TrimSpace(cfg.fileGet(host, "User")) != "" ==> r == cfg.fileGet(host, "User")
    ensures TrimSpace(r) == "" ==> r == currentUser
  {
    if TrimSpace(user) != "" then user
    else if TrimSpace(cfg.fileGet(host, "User")) != "" then cfg.fileGet(host, "User")
    else if TrimSpace(cfg.defaultGet(host, "User")) != "" then cfg.defaultGet(host, "User")
    else currentUser
  }

  /** The identity file chain, then home expansion. */
  function ResolvePrivateKey(path: string, host: string, cfg: SshConfig, os: Os): (r: string)
    ensures path != "" ==> r == Utils.FullPath(path, os).path
    ensures path == "" && cfg.fileGet(host, "IdentityFile") == "" && cfg.defaultGetStrict(host, "IdentityFile") == "" ==>
              r == Utils.FullPath("~/.ssh/id_rsa", os).path
  {
    var identity :=
      if path != "" then path
      else if cfg.fileGet(host, "IdentityFile") != "" then cfg.fileGet(host, "IdentityFile")
      else if cfg.defaultGetStrict(host, "IdentityFile") != "" then cfg.defaultGetStrict(host, "IdentityFile")
      else "~/.ssh/id_rsa";
    Utils.FullPath(identity, os).path
  }

  /** The path GetKnownHosts expands. */
  function KnownHostsSource(known: string): (r: string)
    ensures TrimSpace(known) == "" ==> r == "~/.ssh/known_hosts"
    ensures TrimSpace(known) != "" ==> r == known
  {
    if TrimSpace(known) != "" then known else "~/.ssh/known_hosts"
  }

  predicate AllDigits(s: string)
  {
    forall k :: 0 <= k < |s| ==> IsDigit(s[k])
  }

  /**
   * strconv.ParseUint(s, 10, 16) with the error dropped: a syntax error
   * gives 0 and a value out of range gives the largest uint16.
   */
  function ParseUint16(s: string): (r: nat)
    ensures r < 0x1_0000
    ensures s == "" || !AllDigits(s) ==> r == 0
    ensures s != "" && AllDigits(s) && DigitsValue(s) < 0x1_0000 ==> r == DigitsValue(s)
    ensures s != "" && AllDigits(s) && DigitsValue(s) >= 0x1_0000 ==> r == 0xFFFF
  {
    if s == "" || !AllDigits(s) then 0
    else if DigitsValue(s) < 0x1_0000 then DigitsValue(s)
    else 0xFFFF
  }

  /** A printed port parses back to itself. */
  lemma ParsePrinted(p: nat)
    requires p < 0x1_0000
    ensures ParseUint16(NatToString(p)) == p
  {
    DigitsOfNat(p);
  }

  /** The port chain: a non-zero port, the config file, the defaults, then "22". */
  function ResolvePort(port: nat, host: string, cfg: SshConfig): (r: nat)
    requires port < 0x1_0000
    ensures r < 0x1_0000
    ensures port != 0 ==> r == port
    ensures port == 0 && cfg.fileGet(host, "Port") != "" ==> r == ParseUint16(cfg.fileGet(host, "Port"))
    ensures port == 0 && cfg.fileGet(host, "Port") == "" && cfg.defaultGet(host, "Port") == "" ==> r == 22
  {
    if port != 0 then
      ParsePrinted(port);
      ParseUint16(NatToString(port))
    else
      var p :=
        if cfg.fileGet(host, "Port") != "" then cfg.fileGet(host, "Port")
        else if cfg.defaultGet(host, "Port") != "" then cfg.defaultGet(host, "Port")
        else "22";
      assert ParseUint16("22") == 22 by { ParsePrinted(22); assert NatToString(22) == "22"; }
      ParseUint16(p)
  }

  /** A port that is not a number is 0; one too large is 65535. */
  lemma PortExamples()
    ensures ParseUint16("ssh") == 0
    ensures ParseUint16("70000") == 0xFFFF
  {
    assert !IsDigit("ssh"[0]);
    var s := "70000";
    assert AllDigits(s);
    assert s[..4] == "7000" && "7000"[..3] == "700" && "700"[..2] == "70" && "70"[..1] == "7";
    assert DigitsValue("7") == 7;
    assert DigitsValue(s) == 70000;
  }

  /** The host name with ":<port>" appended unless it already ends so. */
  function CombinedHostName(hostName: string, port: nat): (r: string)
    ensures HasSuffix(r, ":" + NatToString(port))
    ensures HasPrefix(r, hostName)
  {
    var suffix := ":" + NatToString(port);
    if HasSuffix(hostName, suffix) then hostName
    else
      assert (hostName + suffix)[|hostName + suffix| - |suffix|..] == suffix;
      assert (hostName + suffix)[..|hostName|] == hostName;
      hostName + suffix
  }

  /** Combining twice is combining once. */
  lemma CombineIdempotent(hostName: string, port: nat)
    ensures CombinedHostName(CombinedHostName(hostName, port), port) == CombinedHostName(hostName, port)
  {
  }

  /** The host name chain: a non-empty name, the config file, then the defaults. */
  function ResolveHostName(hostName: string, host: string, cfg: SshConfig): (r: string)
    ensures hostName != "" ==> r == hostName
    ensures hostName == "" && cfg.fileGet(host, "HostName") != "" ==> r == cfg.fileGet(host, "HostName")
    ensures hostName == "" && cfg.fileGet(host, "HostName") == "" ==> r == cfg.defaultGet(host, "HostName")
  {
    if hostName != "" then hostName
    else if cfg.fileGet(host, "HostName") != "" then cfg.fileGet(host, "HostName")
    else cfg.defaultGet(host, "HostName")
  }

  /** The ProxyJump value of the SSH configuration: the file, then the defaults. */
  function ConfigProxyJump(host: string, cfg: SshConfig): (r: string)
    ensures r == "" ==> cfg.defaultGet(host, "ProxyJump") == ""
    ensures cfg.fileGet(host, "ProxyJump") != "" ==> r == cfg.fileGet(host, "ProxyJump")
  {
    if cfg.fileGet(host, "ProxyJump") != "" then cfg.fileGet(host, "ProxyJump")
    else cfg.defaultGet(host, "ProxyJump")
  }

  /** IsHostLocal */
  function IsHostLocal(h: string): (r: bool)
    ensures r <==> ToLower(h) in {"", "localhost", "127.0.0.1"}
  {
    var l := ToLower(h);
    l == "127.0.0.1" || l == "localhost" || l == ""
  }

  lemma LocalHostExamples()
    ensures IsHostLocal("LocalHost") && IsHostLocal("") && IsHostLocal("127.0.0.1")
    ensures !IsHostLocal("127.0.0.2") && !IsHostLocal("db")
  {
    assert ToLower("LocalHost") == "localhost";
    assert ToLower("127.0.0.1") == "127.0.0.1";
    assert ToLower("127.0.0.2") == "127.0.0.2";
    assert ToLower("db") == "db";
  }

  // ----------------------------------------------------------- command text

  /** The argument text: " " before each argument. */
  function ArgsStr(args: seq<string>): (r: string)
    ensures |args| == 0 ==> r == ""
    ensures |args| > 0 ==> r == ArgsStr(args[..|args| - 1]) + " " + args[|args| - 1]
  {
    if |args| == 0 then "" else ArgsStr(args[..|args| - 1]) + " " + args[|args| - 1]
  }

  /** ArgsStr is the space-joined arguments behind one more space. */
  lemma {:induction false} ArgsStrJoin(args: seq<string>)
    requires |args| > 0
    ensures ArgsStr(args) == " " + Join(args, " ")
  {
    if |args| == 1 {
      assert args[..0] == [];
    } else {
      var init := args[..|args| - 1];
      ArgsStrJoin(init);
      JoinSnoc(init, args[|args| - 1], " ");
      assert init + [args[|args| - 1]] == args;
    }
  }

  lemma {:induction false} JoinSnoc(parts: seq<string>, last: string, sep: string)
    requires |parts| > 0
    ensures Join(parts + [last], sep) == Join(parts, sep) + sep + last
  {
    if |parts| == 1 {
      assert (parts + [last])[1..] == [last];
    } else {
      assert (parts + [last])[1..] == parts[1..] + [last];
      JoinSnoc(parts[1..], last, sep);
    }
  }

  /** The command string RunCmdSSH runs for plain commands. */
  function RemoteCommandString(shell: string, cmd: string, args: seq<string>): (r: string)
    ensures shell != "" ==> r == shell + " -c '" + cmd + " " + ArgsStr(args) + "'"
    ensures shell == "" ==> r == cmd + " " + ArgsStr(args)
  {
    if shell != "" then shell + " -c '" + cmd + " " + ArgsStr(args) + "'" else cmd + " " + ArgsStr(args)
  }

  /** getCommandTypeAndSetCommandInfoLabel */
  function Label(t: CommandType): (r: string)
    ensures !IsACommandType(t) ==> r == "command"
    ensures IsACommandType(t) ==> r == String(t) + " command"
  {
    if !IsACommandType(t) then "command" else String(t) + " command"
  }

  lemma LabelExamples()
    ensures Label(ScriptFileCT) == "scriptFile command"
    ensures Label(DefaultCT) == " command"
    ensures Label(7) == "command"
  {
    assert String(DefaultCT) == "";
    assert "" + " command" == " command";
  }

  // ------------------------------------------------------------ script stdin

  /** readFileToBuffer: home expansion, then the read; None when either fails. */
  function ReadFileToBuffer(path: string, os: Os): (r: Option<string>)
    ensures !Utils.FullPath(path, os).ok ==> r.None?
    ensures Utils.FullPath(path, os).ok ==> r == os.readFile(Utils.FullPath(path, os).path)
  {
    var p := Utils.FullPath(path, os);
    if !p.ok then None else os.readFile(p.path)
  }

  /** prepareScriptBuffer: the env file and a newline, then the script text and a newline. */
  function PrepareScriptBuffer(cmd: string, scriptEnvFile: string, os: Os): (r: Result<string>)
    ensures scriptEnvFile == "" ==> r == Ok(cmd + "\n")
    ensures scriptEnvFile != "" && ReadFileToBuffer(scriptEnvFile, os).None? ==> r.Err?
    ensures scriptEnvFile != "" && ReadFileToBuffer(scriptEnvFile, os).Some? ==>
              r == Ok(ReadFileToBuffer(scriptEnvFile, os).value + "\n" + cmd + "\n")
    ensures r.Ok? ==> HasSuffix(r.value, cmd + "\n")
  {
    if scriptEnvFile != "" then
      match ReadFileToBuffer(scriptEnvFile, os)
      case None => Err("cannot read " + scriptEnvFile)
      case Some(env) =>
        var r := env + "\n" + cmd + "\n";
        assert r == env + "\n" + (cmd + "\n");
        assert r[|r| - |cmd + "\n"|..] == cmd + "\n";
        Ok(r)
    else
      assert (cmd + "\n")[0..] == cmd + "\n";
      Ok(cmd + "\n")
  }

  /** prepareScriptFileBuffer: the env file and a newline, then the script file, nothing appended. */
  function PrepareScriptFileBuffer(cmd: string, scriptEnvFile: string, os: Os): (r: Result<string>)
    ensures r.Err? <==> (scriptEnvFile != "" && ReadFileToBuffer(scriptEnvFile, os).None?)
                        || ReadFileToBuffer(cmd, os).None?
    ensures r.Ok? && scriptEnvFile == "" ==> r.value == ReadFileToBuffer(cmd, os).value
    ensures r.Ok? && scriptEnvFile != "" ==>
              r.value == ReadFileToBuffer(scriptEnvFile, os).value + "\n" + ReadFileToBuffer(cmd, os).value
  {
    var env := if scriptEnvFile != "" then ReadFileToBuffer(scriptEnvFile, os) else Some("");
    if env.None? then Err("cannot read " + scriptEnvFile)
    else
      match ReadFileToBuffer(cmd, os)
      case None => Err("cannot read " + cmd)
      case Some(script) =>
        if scriptEnvFile != "" then Ok(env.value + "\n" + script)
        else Ok(script)
  }

  /** collectOutput: one element per scanned line; the flag only decides what is logged. */
  method CollectOutput(buf: string, wantOutput: bool) returns (outputArr: seq<string>)
    ensures outputArr == ScanLines(buf)
  {
    var lines := ScanLines(buf);
    outputArr := [];
    var i := 0;
    while i < |lines|
      invariant 0 <= i <= |lines|
      invariant outputArr == lines[..i]
    {
      outputArr := outputArr + [lines[i]];
      i := i + 1;
    }
    assert lines[..i] == lines;
  }
}
