// Running one command (pkg/backy/backy.go): the guards of RunCmd and the
// choice of the local process, ensureRemoteHost, ExecCmdsOnHosts and
// ExecCmdsOnHostsInParallel, and logCommandOutput. Processes, SSH sessions
// and the script fetcher are not executed: a run is an event, a fetch an
// oracle.
module CmdRuns {
  import opened Wrappers
  import opened Strs
  import opened CommandTypes
  import opened BackyTypes
  import Ssh
  import CommandInfo
  import ListRuns

  // ----------------------------------------------------------------- RunCmd

  const BothHostsError := "both 'host' and 'hosts' are set; please set one or the other"

  /** What RunCmd does with a command. */
  datatype Invocation =
    | Refused(msg: string)
    /** ExecCommandOnHostsParallel over Hosts, then (nil, nil) */
    | Delegated
    /** RunCmdOnHost */
    | OnHost
    /** the PackageCommandExecutor */
    | PackageExec
    | FetchFailed(msg: string)
    /** a local process: its name, its arguments and its stdin */
    | Exec(name: string, argv: seq<string>, stdin: Option<string>)

  /** What the choice of the local process reads, after the command info is set. */
  datatype LocalCmd = LocalCmd(ctype: CommandType, cmd: string, args: seq<string>, shell: string,
                               env: string, environment: Option<seq<string>>, stdin: Option<string>,
                               userOperation: string, script: Result<string>)

  /** A password command's stdin reader; other commands get none. */
  function PasswordStdin(l: LocalCmd): Option<string>
  {
    if l.ctype == UserCT && l.userOperation == "password" then l.stdin else None
  }

  /** The text a shell runs: Cmd, a space, then ArgsStr. */
  function ShellLine(cmd: string, args: seq<string>): string
  {
    cmd + " " + Ssh.ArgsStr(args)
  }

  /** The shell line is the command and then every argument, each behind a space. */
  lemma ShellLineWords(cmd: string, args: seq<string>)
    ensures |args| == 0 ==> ShellLine(cmd, args) == cmd + " "
    ensures |args| > 0 ==> ShellLine(cmd, args) == cmd + "  " + Join(args, " ")
  {
    if |args| > 0 {
      Ssh.ArgsStrJoin(args);
    }
  }

  /**
   * The local process as written. With Env or Environment set and no
   * Shell, the shell gets ArgsStr alone, without Cmd.
   */
  function LocalInvocationAsWritten(l: LocalCmd): (r: Invocation)
    ensures l.ctype == PackageCT <==> r == PackageExec
    ensures r.FetchFailed? <==> l.ctype == RemoteScriptCT && l.script.Err?
    ensures r.Exec? && l.ctype == RemoteScriptCT ==> r.stdin == Some(l.script.value) && r.argv == l.args && r.name != ""
    ensures l.ctype != PackageCT && l.ctype != RemoteScriptCT ==> r.Exec? && r.stdin == PasswordStdin(l)
    ensures l.ctype != PackageCT && l.ctype != RemoteScriptCT && l.shell != "" ==>
              r.name == l.shell && r.argv == ["-c", ShellLine(l.cmd, l.args)]
    ensures l.ctype != PackageCT && l.ctype != RemoteScriptCT && l.shell == "" && (l.env != "" || l.environment.Some?) ==>
              r == Exec("/bin/sh", ["-c", Ssh.ArgsStr(l.args)], PasswordStdin(l))
    ensures l.ctype != PackageCT && l.ctype != RemoteScriptCT && l.shell == "" && l.env == "" && l.environment.None? ==>
              r == Exec(l.cmd, l.args, PasswordStdin(l))
  {
    if l.ctype == PackageCT then PackageExec
    else if l.ctype == RemoteScriptCT then
      (if l.script.Err? then FetchFailed(l.script.msg) else Exec(if l.shell == "" then "sh" else l.shell, l.args, Some(l.script.value)))
    else if l.shell != "" then Exec(l.shell, ["-c", ShellLine(l.cmd, l.args)], PasswordStdin(l))
    else if l.env != "" || l.environment.Some? then Exec("/bin/sh", ["-c", Ssh.ArgsStr(l.args)], PasswordStdin(l))
    else Exec(l.cmd, l.args, PasswordStdin(l))
  }

  /** As written, the shell an Env command starts never sees the command: its text does not start with Cmd. */
  lemma EnvDropsCmd(l: LocalCmd)
    requires l.ctype != PackageCT && l.ctype != RemoteScriptCT && l.shell == "" && (l.env != "" || l.environment.Some?)
    requires |l.cmd| > 0 && l.cmd[0] != ' '
    ensures var r := LocalInvocationAsWritten(l); r.Exec? && |r.argv| == 2 && !HasPrefix(r.argv[1], l.cmd)
  {
    if |l.args| > 0 {
      Ssh.ArgsStrJoin(l.args);
    }
  }

  /** For instance `tar -czf b.tgz` with an env file starts `/bin/sh -c " -czf b.tgz"`. */
  lemma EnvDropsCmdExample()
    ensures LocalInvocationAsWritten(LocalCmd(DefaultCT, "tar", ["-czf", "b.tgz"], "", "backup.env", None, None, "", Err(""))).argv
            == ["-c", " -czf b.tgz"]
  {
    assert ["-czf", "b.tgz"][..1] == ["-czf"];
    assert ["-czf"][..0] == [];
    assert Ssh.ArgsStr(["-czf"]) == " -czf";
    assert Ssh.ArgsStr(["-czf", "b.tgz"]) == " -czf b.tgz";
  }

  /**
   * The local process with the Env branch corrected: it runs the command
   * line as the Shell branch does. RunCmd starts LocalInvocationAsWritten.
   */
  function LocalInvocation(l: LocalCmd): (r: Invocation)
    ensures l.ctype == PackageCT <==> r == PackageExec
    ensures r.FetchFailed? <==> l.ctype == RemoteScriptCT && l.script.Err?
    ensures r.Exec? && l.ctype == RemoteScriptCT ==> r.stdin == Some(l.script.value) && r.argv == l.args && r.name != ""
    ensures l.ctype != PackageCT && l.ctype != RemoteScriptCT ==> r.Exec? && r.stdin == PasswordStdin(l)
    ensures l.ctype != PackageCT && l.ctype != RemoteScriptCT && (l.shell != "" || l.env != "" || l.environment.Some?) ==>
              r.argv == ["-c", ShellLine(l.cmd, l.args)]
  {
    if l.ctype == PackageCT then PackageExec
    else if l.ctype == RemoteScriptCT then
      (if l.script.Err? then FetchFailed(l.script.msg) else Exec(if l.shell == "" then "sh" else l.shell, l.args, Some(l.script.value)))
    else if l.shell != "" then Exec(l.shell, ["-c", ShellLine(l.cmd, l.args)], PasswordStdin(l))
    else if l.env != "" || l.environment.Some? then Exec("/bin/sh", ["-c", ShellLine(l.cmd, l.args)], PasswordStdin(l))
    else Exec(l.cmd, l.args, PasswordStdin(l))
  }

  /** With an env file and no Shell, the command runs under /bin/sh exactly as it would with Shell "/bin/sh". */
  lemma EnvRunsShellLine(l: LocalCmd)
    requires l.ctype != PackageCT && l.ctype != RemoteScriptCT && l.shell == "" && (l.env != "" || l.environment.Some?)
    ensures LocalInvocation(l) == LocalInvocation(l.(shell := "/bin/sh"))
  {
  }

  /** The two agree on every command that does not take the Env branch. */
  lemma AsWrittenElsewhere(l: LocalCmd)
    requires l.ctype == PackageCT || l.ctype == RemoteScriptCT || l.shell != "" || (l.env == "" && l.environment.None?)
    ensures LocalInvocationAsWritten(l) == LocalInvocation(l)
  {
  }

  /** A command with no Shell and no environment runs Cmd itself with Args, unquoted. */
  lemma PlainCommandDirect(l: LocalCmd)
    requires l.ctype != PackageCT && l.ctype != RemoteScriptCT && l.shell == "" && l.env == "" && l.environment.None?
    ensures LocalInvocation(l) == Exec(l.cmd, l.args, PasswordStdin(l))
  {
  }

  /** RunCmd's choice: the Host/Hosts guards, then remote or local. */
  function RunPlan(host: string, hosts: Option<seq<string>>, l: LocalCmd): (r: Invocation)
    ensures r.Refused? <==> host != "" && hosts.Some?
    ensures r == Delegated <==> host == "" && hosts.Some?
    ensures r == OnHost <==> hosts.None? && !Ssh.IsHostLocal(host)
    ensures hosts.None? && Ssh.IsHostLocal(host) ==> r == LocalInvocationAsWritten(l)
  {
    if host != "" && hosts.Some? then Refused(BothHostsError)
    else if hosts.Some? then Delegated
    else if !Ssh.IsHostLocal(host) then OnHost
    else LocalInvocationAsWritten(l)
  }

  /** What RunCmd reads of the command for the local process. */
  function LocalOf(c: Command, shell: string, fetch: string -> Result<string>): LocalCmd
    reads c
  {
    LocalCmd(c.ctype, c.cmd, c.args, shell, c.env, c.environment, c.stdin, c.userOperation, fetch(c.cmd))
  }

  /**
   * RunCmd up to the start of the process: the guards leave the command as
   * it is; otherwise the command info is set first, and a remote script
   * without a Shell gets Shell "sh".
   */
  method RunCmd(c: Command, generated: string, fetch: string -> Result<string>) returns (inv: Invocation)
    requires |generated| == 20 && CommandInfo.Ready(c)
    modifies c`packageCmdSet, c`userCmdSet, c`cmd, c`args, c`stdin, c`userPassword, c`shell
    ensures c.hosts.Some? ==> c.Info() == old(c.Info())
    ensures c.hosts.None? ==> c.Info() == CommandInfo.SetInfo(old(c.Info()), c.ctype, c.pkgMan, c.packageOperation, c.packages, CommandInfo.Request(c), generated)
    ensures inv == RunPlan(old(c.HostString()), c.hosts, LocalOf(c, old(c.shell), fetch))
    ensures c.shell == (if inv.Exec? && c.ctype == RemoteScriptCT && old(c.shell) == "" then "sh" else old(c.shell))
  {
    var host := c.HostString();
    if host != "" && c.hosts.Some? {
      return Refused(BothHostsError);
    } else if c.hosts.Some? {
      return Delegated;
    }
    CommandInfo.SetCommandInfo(c, generated);
    if !Ssh.IsHostLocal(c.HostString()) {
      return OnHost;
    }
    inv := LocalInvocationAsWritten(LocalOf(c, c.shell, fetch));
    if c.ctype == RemoteScriptCT && inv.Exec? && c.shell == "" {
      c.shell := "sh";
    }
  }

  // ------------------------------------------------------- ensureRemoteHost

  /**
   * ensureRemoteHost: a RemoteHost already set is kept; otherwise the host's
   * entry of Hosts, else a new Host with only Host set.
   */
  method EnsureRemoteHost(opts: ConfigOpts, c: Command, host: string)
    modifies c
    ensures c.remoteHost.Some?
    ensures old(c.remoteHost).Some? ==> c.remoteHost == old(c.remoteHost)
    ensures old(c.remoteHost).None? && host in opts.hosts ==> c.remoteHost == Some(opts.hosts[host])
    ensures old(c.remoteHost).None? && host !in opts.hosts ==>
              fresh(c.remoteHost.value) && c.remoteHost.value.State() == Ssh.HostState(host, "", 0, "", "", "", "", "", [], false, "")
    ensures c.Fields() == old(c.Fields()).(remoteHost := c.remoteHost)
  {
    if c.remoteHost.Some? {
      return;
    }
    if host in opts.hosts {
      c.remoteHost := Some(opts.hosts[host]);
      return;
    }
    var h := new Ssh.Host(host);
    c.remoteHost := Some(h);
  }

  // ------------------------------------------- ExecCmdsOnHosts(InParallel)

  /** The Host of every configured host. */
  function HostNamesOf(hosts: map<string, Ssh.Host>): (r: map<string, string>)
    reads hosts.Values
    ensures r.Keys == hosts.Keys && forall k :: k in hosts ==> r[k] == hosts[k].host
  {
    map k | k in hosts :: hosts[k].host
  }

  /** Where a command runs for the host key h: h when it is local, else that entry's Host; None is a nil Host. */
  function Target(h: string, names: map<string, string>): (r: Option<string>)
    ensures Ssh.IsHostLocal(h) ==> r == Some(h)
    ensures !Ssh.IsHostLocal(h) ==> (r.Some? <==> h in names) && (h in names ==> r == Some(names[h]))
  {
    if Ssh.IsHostLocal(h) then Some(h) else if h in names then Some(names[h]) else None
  }

  /** The run of command c for host key h; an unknown command or a nil Host is dereferenced. */
  function RunOn(c: string, h: string, known: set<string>, names: map<string, string>): ListRuns.Event
  {
    if c !in known || Target(h, names).None? then ListRuns.Crash else ListRuns.Run(c, Target(h, names).value)
  }

  /** The runs of every command on one host. */
  function Row(cmds: seq<string>, h: string, known: set<string>, names: map<string, string>): (r: seq<ListRuns.Event>)
    ensures |r| == |cmds| && forall j :: 0 <= j < |cmds| ==> r[j] == RunOn(cmds[j], h, known, names)
  {
    seq(|cmds|, j requires 0 <= j < |cmds| => RunOn(cmds[j], h, known, names))
  }

  /** The runs of one command on every host. */
  function Col(c: string, hs: seq<string>, known: set<string>, names: map<string, string>): (r: seq<ListRuns.Event>)
    ensures |r| == |hs| && forall j :: 0 <= j < |hs| ==> r[j] == RunOn(c, hs[j], known, names)
  {
    seq(|hs|, j requires 0 <= j < |hs| => RunOn(c, hs[j], known, names))
  }

  /** Host-major order: every command on the first host, then on the next. */
  function HostMajor(cmds: seq<string>, hs: seq<string>, known: set<string>, names: map<string, string>): seq<ListRuns.Event>
  {
    if |hs| == 0 then [] else HostMajor(cmds, hs[..|hs| - 1], known, names) + Row(cmds, hs[|hs| - 1], known, names)
  }

  /** Command-major order: the first command on every host, then the next. */
  function CommandMajor(cmds: seq<string>, hs: seq<string>, known: set<string>, names: map<string, string>): seq<ListRuns.Event>
  {
    if |cmds| == 0 then [] else CommandMajor(cmds[..|cmds| - 1], hs, known, names) + Col(cmds[|cmds| - 1], hs, known, names)
  }

  predicate NoCrash(events: seq<ListRuns.Event>)
  {
    forall j :: 0 <= j < |events| ==> !events[j].Crash?
  }

  /** The trace of a loop that ends at the first crash. */
  function UpToCrash(events: seq<ListRuns.Event>): (r: seq<ListRuns.Event>)
    ensures |r| <= |events| && r == events[..|r|]
  {
    if |events| == 0 then []
    else if events[0].Crash? then [events[0]]
    else [events[0]] + UpToCrash(events[1..])
  }

  /** A crash-free prefix followed by a crash is the whole trace up to the crash. */
  lemma {:induction false} UpToCrashAt(events: seq<ListRuns.Event>, n: nat)
    requires n < |events| && events[n].Crash? && NoCrash(events[..n])
    ensures UpToCrash(events) == events[..n + 1]
  {
    if n > 0 {
      assert events[1..][..n - 1] == events[..n][1..];
      UpToCrashAt(events[1..], n - 1);
      assert events[..n + 1] == [events[0]] + events[1..][..n];
    }
  }

  lemma {:induction false} UpToCrashNone(events: seq<ListRuns.Event>)
    requires NoCrash(events)
    ensures UpToCrash(events) == events
  {
    if |events| > 0 {
      UpToCrashNone(events[1..]);
    }
  }

  lemma {:induction false} HostMajorGrows(cmds: seq<string>, hs: seq<string>, known: set<string>, names: map<string, string>, i: nat)
    requires i <= |hs|
    ensures var q := HostMajor(cmds, hs[..i], known, names);
      var w := HostMajor(cmds, hs, known, names);
      |q| <= |w| && w[..|q|] == q
    decreases |hs| - i
  {
    if i < |hs| {
      HostMajorGrows(cmds, hs, known, names, i + 1);
      assert hs[..i + 1][..i] == hs[..i];
    } else {
      assert hs[..i] == hs;
    }
  }

  lemma {:induction false} CommandMajorGrows(cmds: seq<string>, hs: seq<string>, known: set<string>, names: map<string, string>, i: nat)
    requires i <= |cmds|
    ensures var q := CommandMajor(cmds[..i], hs, known, names);
      var w := CommandMajor(cmds, hs, known, names);
      |q| <= |w| && w[..|q|] == q
    decreases |cmds| - i
  {
    if i < |cmds| {
      CommandMajorGrows(cmds, hs, known, names, i + 1);
      assert cmds[..i + 1][..i] == cmds[..i];
    } else {
      assert cmds[..i] == cmds;
    }
  }

  /** Adding a host to command-major order adds that host's row to the runs. */
  lemma {:induction false} CommandMajorSnocHost(cmds: seq<string>, hs: seq<string>, h: string, known: set<string>, names: map<string, string>)
    ensures multiset(CommandMajor(cmds, hs + [h], known, names)) == multiset(CommandMajor(cmds, hs, known, names)) + multiset(Row(cmds, h, known, names))
  {
    if |cmds| > 0 {
      var n := |cmds| - 1;
      CommandMajorSnocHost(cmds[..n], hs, h, known, names);
      assert Col(cmds[n], hs + [h], known, names) == Col(cmds[n], hs, known, names) + [RunOn(cmds[n], h, known, names)];
      assert Row(cmds, h, known, names) == Row(cmds[..n], h, known, names) + [RunOn(cmds[n], h, known, names)];
    } else {
      assert Row(cmds, h, known, names) == [];
    }
  }

  /**
   * ExecCmdsOnHosts and ExecCmdsOnHostsInParallel make the same runs: the
   * same (command, host) pairs, as often, in a different order; so one
   * crashes iff the other does.
   */
  lemma {:induction false} SameRuns(cmds: seq<string>, hs: seq<string>, known: set<string>, names: map<string, string>)
    ensures multiset(HostMajor(cmds, hs, known, names)) == multiset(CommandMajor(cmds, hs, known, names))
    ensures NoCrash(HostMajor(cmds, hs, known, names)) <==> NoCrash(CommandMajor(cmds, hs, known, names))
  {
    if |hs| > 0 {
      var n := |hs| - 1;
      SameRuns(cmds, hs[..n], known, names);
      CommandMajorSnocHost(cmds, hs[..n], hs[n], known, names);
      assert hs[..n] + [hs[n]] == hs;
    } else {
      assert CommandMajor(cmds, hs, known, names) == [] by {
        CommandMajorEmptyHosts(cmds, known, names);
      }
    }
    var a := HostMajor(cmds, hs, known, names);
    var b := CommandMajor(cmds, hs, known, names);
    assert NoCrash(a) <==> ListRuns.Crash !in multiset(a) by {
      NoCrashMultiset(a);
    }
    NoCrashMultiset(b);
  }

  lemma NoCrashMultiset(events: seq<ListRuns.Event>)
    ensures NoCrash(events) <==> ListRuns.Crash !in multiset(events)
  {
    if !NoCrash(events) {
      var j :| 0 <= j < |events| && events[j].Crash?;
      assert events[j] == ListRuns.Crash;
    }
  }

  lemma {:induction false} CommandMajorEmptyHosts(cmds: seq<string>, known: set<string>, names: map<string, string>)
    ensures CommandMajor(cmds, [], known, names) == []
  {
    if |cmds| > 0 {
      CommandMajorEmptyHosts(cmds[..|cmds| - 1], known, names);
    }
  }

  /** The RemoteHost a command takes for the host key h: that entry of Hosts, or nil. */
  function HostObj(hosts: map<string, Ssh.Host>, h: string): Option<Ssh.Host>
  {
    if h in hosts then Some(hosts[h]) else None
  }

  /** A command holding this Host and RemoteHost. */
  predicate SetTo(cmd: Command, target: Option<string>, remote: Option<Ssh.Host>)
    reads cmd
  {
    cmd.host == target && cmd.remoteHost == remote
  }

  /** The Host and RemoteHost a command has after it ran for host key h. */
  predicate SetFor(opts: ConfigOpts, c: string, h: string)
    reads opts, opts.cmds.Values, opts.hosts.Values
  {
    c in opts.cmds && SetTo(opts.cmds[c], Target(h, HostNamesOf(opts.hosts)), HostObj(opts.hosts, h))
  }

  /** One pass of either loop: the command takes the host key's RemoteHost and Host, and runs. */
  method RunCmdFor(opts: ConfigOpts, c: string, h: string, ghost names: map<string, string>) returns (e: ListRuns.Event)
    requires names == HostNamesOf(opts.hosts)
    modifies if c in opts.cmds then {opts.cmds[c]} else {}
    ensures e == RunOn(c, h, opts.cmds.Keys, names)
    ensures !e.Crash? ==> c in opts.cmds && SetTo(opts.cmds[c], Target(h, names), HostObj(opts.hosts, h))
  {
    if c !in opts.cmds {
      return ListRuns.Crash;
    }
    var cmd := opts.cmds[c];
    var host := HostObj(opts.hosts, h);
    cmd.remoteHost := host;
    cmd.host := Some(h);
    if Ssh.IsHostLocal(h) {
      return ListRuns.Run(c, h);
    }
    if host.None? {
      return ListRuns.Crash;
    }
    cmd.host := Some(host.value.host);
    e := ListRuns.Run(c, host.value.host);
  }

  /** A crash-free trace followed by more runs keeps the first part whole. */
  lemma {:induction false} UpToCrashAppend(a: seq<ListRuns.Event>, b: seq<ListRuns.Event>)
    requires NoCrash(a)
    ensures UpToCrash(a + b) == a + UpToCrash(b)
  {
    if |a| > 0 {
      assert (a + b)[0] == a[0];
      assert (a + b)[1..] == a[1..] + b;
      UpToCrashAppend(a[1..], b);
      assert a == [a[0]] + a[1..];
    } else {
      assert a + b == b;
    }
  }

  /** Once a prefix holds a crash, what comes after it is never reached. */
  lemma {:induction false} UpToCrashExtend(p: seq<ListRuns.Event>, w: seq<ListRuns.Event>)
    requires |p| <= |w| && w[..|p|] == p && !NoCrash(p)
    ensures UpToCrash(w) == UpToCrash(p)
  {
    assert p[0] == w[0];
    if !p[0].Crash? {
      assert w[1..][..|p| - 1] == p[1..];
      UpToCrashExtend(p[1..], w[1..]);
    }
  }

  lemma CrashInSuffix(a: seq<ListRuns.Event>, b: seq<ListRuns.Event>)
    requires !NoCrash(b)
    ensures !NoCrash(a + b)
  {
    var j :| 0 <= j < |b| && b[j].Crash?;
    assert (a + b)[|a| + j] == b[j];
  }

  /** The trace is the whole sequence, or it ends at a crash. */
  lemma {:induction false} UpToCrashCases(x: seq<ListRuns.Event>)
    ensures NoCrash(x) ==> UpToCrash(x) == x
    ensures !NoCrash(x) ==> !NoCrash(UpToCrash(x))
  {
    if |x| > 0 && !x[0].Crash? {
      UpToCrashCases(x[1..]);
      if !NoCrash(UpToCrash(x[1..])) {
        var j :| 0 <= j < |UpToCrash(x[1..])| && UpToCrash(x[1..])[j].Crash?;
        assert UpToCrash(x)[j + 1] == UpToCrash(x[1..])[j];
      }
    }
  }

  /** One more run of a loop that stops at the first crash: the trace ends there, or goes on. */
  lemma TraceStep(full: seq<ListRuns.Event>, done: seq<ListRuns.Event>, j: nat, e: ListRuns.Event)
    requires j < |full| && done == full[..j] && NoCrash(done) && e == full[j]
    ensures e.Crash? ==> done + [e] == UpToCrash(full)
    ensures !e.Crash? ==> done + [e] == full[..j + 1] && NoCrash(done + [e])
  {
    assert full[..j + 1] == full[..j] + [full[j]];
    if e.Crash? {
      UpToCrashAt(full, j);
    }
  }

  /** A loop that ran every step without a crash traced the whole sequence. */
  lemma TraceDone(full: seq<ListRuns.Event>, done: seq<ListRuns.Event>, j: nat)
    requires j == |full| && done == full[..j] && NoCrash(done)
    ensures done == UpToCrash(full)
  {
    assert full[..j] == full;
    UpToCrashNone(done);
  }

  /** The inner loop of ExecCmdsOnHosts: every command of the list on one host. */
  method RunRow(opts: ConfigOpts, cmdList: seq<string>, h: string, ghost names: map<string, string>) returns (row: seq<ListRuns.Event>)
    requires names == HostNamesOf(opts.hosts)
    modifies opts.cmds.Values
    ensures row == UpToCrash(Row(cmdList, h, opts.cmds.Keys, names))
    ensures NoCrash(row) ==> forall m :: 0 <= m < |cmdList| ==> cmdList[m] in opts.cmds && SetTo(opts.cmds[cmdList[m]], Target(h, names), HostObj(opts.hosts, h))
  {
    ghost var full := Row(cmdList, h, opts.cmds.Keys, names);
    ghost var target := Target(h, names);
    ghost var remote := HostObj(opts.hosts, h);
    row := [];
    var j := 0;
    while j < |cmdList|
      invariant 0 <= j <= |cmdList|
      invariant row == full[..j] && NoCrash(row)
      invariant forall m :: 0 <= m < j ==> cmdList[m] in opts.cmds && SetTo(opts.cmds[cmdList[m]], target, remote)
    {
      var e := RunCmdFor(opts, cmdList[j], h, names);
      TraceStep(full, row, j, e);
      row := row + [e];
      if e.Crash? {
        return;
      }
      j := j + 1;
    }
    TraceDone(full, row, j);
  }

  /** Host-major order after one more host: it goes on, or it has reached its crash. */
  lemma HostMajorStep(cmds: seq<string>, hs: seq<string>, known: set<string>, names: map<string, string>, i: nat, events: seq<ListRuns.Event>)
    requires i < |hs| && events == HostMajor(cmds, hs[..i], known, names) && NoCrash(events)
    ensures var row := UpToCrash(Row(cmds, hs[i], known, names));
      (NoCrash(row) ==> events + row == HostMajor(cmds, hs[..i + 1], known, names) && NoCrash(events + row))
      && (!NoCrash(row) ==> events + row == UpToCrash(HostMajor(cmds, hs, known, names)) && !NoCrash(events + row))
  {
    var full := Row(cmds, hs[i], known, names);
    var row := UpToCrash(full);
    assert hs[..i + 1][..i] == hs[..i];
    UpToCrashCases(full);
    if !NoCrash(row) {
      HostMajorGrows(cmds, hs, known, names, i + 1);
      CrashInSuffix(events, full);
      UpToCrashExtend(events + full, HostMajor(cmds, hs, known, names));
      UpToCrashAppend(events, full);
      CrashInSuffix(events, row);
    }
  }

  /** ExecCmdsOnHosts: host-major. Afterwards every command has the last host. */
  method ExecCmdsOnHosts(opts: ConfigOpts, cmdList: seq<string>, hostsList: seq<string>) returns (events: seq<ListRuns.Event>)
    modifies opts.cmds.Values
    ensures events == UpToCrash(HostMajor(cmdList, hostsList, opts.cmds.Keys, HostNamesOf(opts.hosts)))
    ensures NoCrash(events) && |hostsList| > 0 ==> forall j :: 0 <= j < |cmdList| ==> SetFor(opts, cmdList[j], hostsList[|hostsList| - 1])
  {
    ghost var names := HostNamesOf(opts.hosts);
    events := [];
    var i := 0;
    while i < |hostsList|
      invariant 0 <= i <= |hostsList|
      invariant events == HostMajor(cmdList, hostsList[..i], opts.cmds.Keys, names) && NoCrash(events)
      invariant i > 0 ==> forall j :: 0 <= j < |cmdList| ==>
                  cmdList[j] in opts.cmds && SetTo(opts.cmds[cmdList[j]], Target(hostsList[i - 1], names), HostObj(opts.hosts, hostsList[i - 1]))
    {
      var row := RunRow(opts, cmdList, hostsList[i], names);
      HostMajorStep(cmdList, hostsList, opts.cmds.Keys, names, i, events);
      if !NoCrash(row) {
        events := events + row;
        assert names == HostNamesOf(opts.hosts);
        return;
      }
      events := events + row;
      i := i + 1;
    }
    assert hostsList[..i] == hostsList;
    UpToCrashNone(events);
    assert names == HostNamesOf(opts.hosts);
  }

  /** The inner loop of ExecCmdsOnHostsInParallel: one command on every host. */
  method RunCol(opts: ConfigOpts, c: string, cmd: Command, hostsList: seq<string>, ghost names: map<string, string>) returns (col: seq<ListRuns.Event>)
    requires names == HostNamesOf(opts.hosts) && c in opts.cmds && opts.cmds[c] == cmd
    modifies cmd
    ensures col == UpToCrash(Col(c, hostsList, opts.cmds.Keys, names))
    ensures NoCrash(col) && |hostsList| > 0 ==> SetTo(cmd, Target(hostsList[|hostsList| - 1], names), HostObj(opts.hosts, hostsList[|hostsList| - 1]))
  {
    ghost var full := Col(c, hostsList, opts.cmds.Keys, names);
    col := [];
    var j := 0;
    while j < |hostsList|
      invariant 0 <= j <= |hostsList|
      invariant col == full[..j] && NoCrash(col)
      invariant j > 0 ==> SetTo(cmd, Target(hostsList[j - 1], names), HostObj(opts.hosts, hostsList[j - 1]))
    {
      var e := RunCmdFor(opts, c, hostsList[j], names);
      TraceStep(full, col, j, e);
      col := col + [e];
      if e.Crash? {
        assert col[|col| - 1].Crash?;
        return;
      }
      j := j + 1;
    }
    TraceDone(full, col, j);
  }

  /** An unknown command crashes on the first host. */
  lemma ColOfUnknown(c: string, hs: seq<string>, known: set<string>, names: map<string, string>)
    requires c !in known
    ensures UpToCrash(Col(c, hs, known, names)) == if |hs| > 0 then [ListRuns.Crash] else []
  {
  }

  /** Command-major order after one more command: it goes on, or it has reached its crash. */
  lemma CommandMajorStep(cmds: seq<string>, hs: seq<string>, known: set<string>, names: map<string, string>, i: nat, events: seq<ListRuns.Event>)
    requires i < |cmds| && ColumnsDone(cmds, hs, known, names, i, events)
    ensures var col := UpToCrash(Col(cmds[i], hs, known, names));
      (NoCrash(col) ==> ColumnsDone(cmds, hs, known, names, i + 1, events + col))
      && (!NoCrash(col) ==> events + col == UpToCrash(CommandMajor(cmds, hs, known, names)) && !NoCrash(events + col))
  {
    var full := Col(cmds[i], hs, known, names);
    var col := UpToCrash(full);
    assert cmds[..i + 1][..i] == cmds[..i];
    UpToCrashCases(full);
    if !NoCrash(col) {
      CommandMajorGrows(cmds, hs, known, names, i + 1);
      CrashInSuffix(events, full);
      UpToCrashExtend(events + full, CommandMajor(cmds, hs, known, names));
      UpToCrashAppend(events, full);
      CrashInSuffix(events, col);
    }
  }

  /** The first i commands ran on every host without a crash. */
  predicate ColumnsDone(cmds: seq<string>, hs: seq<string>, known: set<string>, names: map<string, string>, i: nat, events: seq<ListRuns.Event>)
  {
    i <= |cmds| && events == CommandMajor(cmds[..i], hs, known, names) && NoCrash(events)
  }

  predicate AllSetTo(done: set<Command>, target: Option<string>, remote: Option<Ssh.Host>)
    reads done
  {
    forall o :: o in done ==> SetTo(o, target, remote)
  }

  /**
   * One pass of ExecCmdsOnHostsInParallel's outer loop: command c on every
   * host. `done` holds the commands already left with the last host's
   * Host and RemoteHost; when c runs without a crash, its command joins them.
   */
  method RunColumn(opts: ConfigOpts, c: string, hostsList: seq<string>, ghost names: map<string, string>, ghost done: set<Command>)
    returns (col: seq<ListRuns.Event>, ghost done': set<Command>)
    requires names == HostNamesOf(opts.hosts) && |hostsList| > 0
    requires AllSetTo(done, Target(hostsList[|hostsList| - 1], names), HostObj(opts.hosts, hostsList[|hostsList| - 1]))
    modifies opts.cmds.Values
    ensures col == UpToCrash(Col(c, hostsList, opts.cmds.Keys, names))
    ensures NoCrash(col) ==> done <= done' && c in opts.cmds && opts.cmds[c] in done'
    ensures AllSetTo(done', Target(hostsList[|hostsList| - 1], names), HostObj(opts.hosts, hostsList[|hostsList| - 1]))
  {
    ghost var last := hostsList[|hostsList| - 1];
    if c !in opts.cmds {
      ColOfUnknown(c, hostsList, opts.cmds.Keys, names);
      return [ListRuns.Crash], done;
    }
    var cmd := opts.cmds[c];
    col := RunCol(opts, c, cmd, hostsList, names);
    if NoCrash(col) {
      done' := done + {cmd};
    } else {
      done' := done - {cmd};
    }
  }

  /** ExecCmdsOnHostsInParallel: command-major, one run at a time. Afterwards every command has the last host. */
  method ExecCmdsOnHostsInParallel(opts: ConfigOpts, cmdList: seq<string>, hostsList: seq<string>) returns (events: seq<ListRuns.Event>)
    modifies opts.cmds.Values
    ensures events == UpToCrash(CommandMajor(cmdList, hostsList, opts.cmds.Keys, HostNamesOf(opts.hosts)))
    ensures NoCrash(events) && |hostsList| > 0 ==> forall j :: 0 <= j < |cmdList| ==> SetFor(opts, cmdList[j], hostsList[|hostsList| - 1])
  {
    if |hostsList| == 0 {
      CommandMajorEmptyHosts(cmdList, opts.cmds.Keys, HostNamesOf(opts.hosts));
      return [];
    }
    ghost var names := HostNamesOf(opts.hosts);
    ghost var last := hostsList[|hostsList| - 1];
    // the commands already run on every host
    ghost var done: set<Command> := {};
    events := [];
    var i := 0;
    while i < |cmdList|
      invariant 0 <= i <= |cmdList|
      invariant names == HostNamesOf(opts.hosts)
      invariant ColumnsDone(cmdList, hostsList, opts.cmds.Keys, names, i, events)
      invariant CmdsDone(opts.cmds, cmdList[..i], done)
      invariant AllSetTo(done, Target(last, names), HostObj(opts.hosts, last))
    {
      var col;
      ghost var done0 := done;
      col, done := RunColumn(opts, cmdList[i], hostsList, names, done);
      CommandMajorStep(cmdList, hostsList, opts.cmds.Keys, names, i, events);
      if NoCrash(col) {
        CmdsDoneStep(opts.cmds, cmdList, i, done0, done);
      }
      events := events + col;
      if !NoCrash(col) {
        return;
      }
      i := i + 1;
    }
    assert cmdList[..i] == cmdList;
    UpToCrashNone(events);
    AllSetFor(opts, cmdList, last, done);
  }

  /** Every command of the list is configured and among `done`. */
  predicate CmdsDone(cmds: map<string, Command>, cmdList: seq<string>, done: set<Command>)
  {
    forall m :: 0 <= m < |cmdList| ==> cmdList[m] in cmds && cmds[cmdList[m]] in done
  }

  lemma CmdsDoneStep(cmds: map<string, Command>, cmdList: seq<string>, i: nat, done: set<Command>, done': set<Command>)
    requires i < |cmdList| && CmdsDone(cmds, cmdList[..i], done) && done <= done'
    requires cmdList[i] in cmds && cmds[cmdList[i]] in done'
    ensures CmdsDone(cmds, cmdList[..i + 1], done')
  {
    assert forall m :: 0 <= m < i ==> cmdList[..i + 1][m] == cmdList[..i][m];
  }

  lemma AllSetFor(opts: ConfigOpts, cmdList: seq<string>, last: string, done: set<Command>)
    requires CmdsDone(opts.cmds, cmdList, done)
    requires AllSetTo(done, Target(last, HostNamesOf(opts.hosts)), HostObj(opts.hosts, last))
    ensures forall j :: 0 <= j < |cmdList| ==> SetFor(opts, cmdList[j], last)
  {
  }

  // ------------------------------------------------------- logCommandOutput

  /** logCommandOutput: every line the scanner yields from the output buffer, appended in order. */
  method LogCommandOutput(buf: string, outputArr: seq<string>) returns (r: seq<string>)
    ensures r == outputArr + ScanLines(buf)
  {
    var lines := ScanLines(buf);
    r := outputArr;
    var i := 0;
    while i < |lines|
      invariant 0 <= i <= |lines|
      invariant r == outputArr + lines[..i]
    {
      r := r + [lines[i]];
      assert lines[..i + 1] == lines[..i] + [lines[i]];
      i := i + 1;
    }
    assert lines[..i] == lines;
  }

  /** Output written as newline-terminated lines comes back as those lines, after the lines already collected. */
  lemma LogKeepsLines(lines: seq<string>, outputArr: seq<string>)
    requires forall j :: 0 <= j < |lines| ==> PlainLine(lines[j])
    ensures outputArr + ScanLines(Terminated(lines)) == outputArr + lines
  {
    ScanLinesOfTerminated(lines);
  }
}
