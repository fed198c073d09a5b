// The records of package backy that the configuration passes, the command
// setter and the list workers update in place: Command, CmdList and
// ConfigOpts, plus the notification records a list holds.
module BackyTypes {
  import opened Wrappers
  import opened CommandTypes
  import opened PkgCommon
  import PkgMan
  import UserMan
  import Ssh
  import Utils

  /** The hook lists of a command, by kind. */
  datatype Hooks = Hooks(error: seq<string>, success: seq<string>, final: seq<string>)

  /** A command as the configuration file declares it. */
  datatype CommandDecl = CommandDecl(
    name: string, cmd: string, args: seq<string>, host: Option<string>, hosts: Option<seq<string>>,
    shell: string, env: string, environment: Option<seq<string>>, ctype: CommandType,
    hooks: Option<Hooks>, outputInList: bool, outputToLog: bool, scriptEnvFile: string,
    packageManager: string, packageOperation: string, packageName: string, packages: seq<Package>,
    username: string, userHome: string, userShell: string, userIsSystem: bool,
    userCreateHome: bool, userGroups: seq<string>, userOperation: string, userPassword: string,
    os: string)

  /** The fields getCommandTypeAndSetCommandInfo may write, as one value. */
  datatype CmdInfo = CmdInfo(
    cmd: string, args: seq<string>, stdin: Option<string>, userPassword: string,
    packageCmdSet: bool, userCmdSet: bool)

  /** Every variable field of a Command except hookRefs, as one value. */
  datatype CmdFields = CmdFields(
    name: string, info: CmdInfo, host: Option<string>, remoteHost: Option<Ssh.Host>, shell: string,
    packages: seq<Package>, pkgMan: Option<PkgMan.Manager>, userMan: Option<UserMan.UserManager>, os: string)

  /** A configured command. The declared settings are constants; the rest is set while it is processed and run. */
  class Command {
    const ctype: CommandType
    const hosts: Option<seq<string>>
    const env: string
    const environment: Option<seq<string>>
    const hooks: Option<Hooks>
    /** Output.InList and Output.ToLog */
    const outputInList: bool
    const outputToLog: bool
    const scriptEnvFile: string
    const packageManager: string
    const packageOperation: string
    const packageName: string
    const username: string
    const userHome: string
    const userShell: string
    const userIsSystem: bool
    const userCreateHome: bool
    const userGroups: seq<string>
    const userOperation: string

    var name: string
    var cmd: string
    var args: seq<string>
    /** The *string Host: None is nil. */
    var host: Option<string>
    var remoteHost: Option<Ssh.Host>
    var shell: string
    var packages: seq<Package>
    var pkgMan: Option<PkgMan.Manager>
    var packageCmdSet: bool
    var userPassword: string
    /** The stdin reader of a password command; None is nil. */
    var stdin: Option<string>
    var userMan: Option<UserMan.UserManager>
    var userCmdSet: bool
    var os: string
    /** hookRefs: hook kind, then hook name, to the hook's command. */
    var hookRefs: map<string, map<string, Command>>

    constructor (d: CommandDecl)
      ensures ctype == d.ctype && hosts == d.hosts && env == d.env && environment == d.environment
      ensures hooks == d.hooks && outputInList == d.outputInList && outputToLog == d.outputToLog
      ensures scriptEnvFile == d.scriptEnvFile && packageManager == d.packageManager
      ensures packageOperation == d.packageOperation && packageName == d.packageName
      ensures username == d.username && userHome == d.userHome && userShell == d.userShell
      ensures userIsSystem == d.userIsSystem && userCreateHome == d.userCreateHome
      ensures userGroups == d.userGroups && userOperation == d.userOperation
      ensures name == d.name && host == d.host && shell == d.shell && packages == d.packages && os == d.os
      ensures remoteHost.None? && pkgMan.None? && userMan.None? && hookRefs == map[]
      ensures Info() == CmdInfo(d.cmd, d.args, None, d.userPassword, false, false)
    {
      ctype := d.ctype;
      hosts := d.hosts;
      env := d.env;
      environment := d.environment;
      hooks := d.hooks;
      outputInList := d.outputInList;
      outputToLog := d.outputToLog;
      scriptEnvFile := d.scriptEnvFile;
      packageManager := d.packageManager;
      packageOperation := d.packageOperation;
      packageName := d.packageName;
      username := d.username;
      userHome := d.userHome;
      userShell := d.userShell;
      userIsSystem := d.userIsSystem;
      userCreateHome := d.userCreateHome;
      userGroups := d.userGroups;
      userOperation := d.userOperation;
      name := d.name;
      cmd := d.cmd;
      args := d.args;
      host := d.host;
      remoteHost := None;
      shell := d.shell;
      packages := d.packages;
      pkgMan := None;
      packageCmdSet := false;
      userPassword := d.userPassword;
      stdin := None;
      userMan := None;
      userCmdSet := false;
      os := d.os;
      hookRefs := map[];
    }

    function Info(): CmdInfo
      reads this
    {
      CmdInfo(cmd, args, stdin, userPassword, packageCmdSet, userCmdSet)
    }

    function Fields(): CmdFields
      reads this
    {
      CmdFields(name, Info(), host, remoteHost, shell, packages, pkgMan, userMan, os)
    }

    /** The string Host of the list workers: "" when none is set. */
    function HostString(): (r: string)
      reads this
      ensures host.None? ==> r == ""
      ensures host.Some? ==> r == host.value
    {
      if host.Some? then host.value else ""
    }
  }

  /** A mail notification id. */
  datatype MailConfig = MailConfig(host: string, port: string, username: string, senderAddress: string,
                                   to: seq<string>, password: string)

  /** A matrix notification id. */
  datatype MatrixConfig = MatrixConfig(homeserver: string, roomId: string, accessToken: string, userId: string)

  /** A configured notifier, as setupMail and setupMatrix build them. */
  datatype Service =
    | Mail(sender: string, address: string, receivers: seq<string>)
    | Matrix(homeserver: string, roomId: string, accessToken: string, userId: string)

  /** A command list. */
  class CmdList {
    var name: string
    const order: seq<string>
    const notifications: seq<string>
    const cron: string
    /** Notify.OnFailure */
    const notifyOnFailure: bool
    const getOutputOnSuccess: bool
    /** NotifyConfig: None is nil, otherwise the services of notify.NewWithServices. */
    var notifyConfig: Option<seq<Service>>

    constructor (name: string, order: seq<string>, notifications: seq<string>, cron: string,
                 notifyOnFailure: bool, getOutputOnSuccess: bool)
      ensures this.name == name && this.order == order && this.notifications == notifications
      ensures this.cron == cron && this.notifyOnFailure == notifyOnFailure
      ensures this.getOutputOnSuccess == getOutputOnSuccess && notifyConfig.None?
    {
      this.name := name;
      this.order := order;
      this.notifications := notifications;
      this.cron := cron;
      this.notifyOnFailure := notifyOnFailure;
      this.getOutputOnSuccess := getOutputOnSuccess;
      notifyConfig := None;
    }
  }

  /** The option settings of ConfigOpts that NewConfigOptions fills in, as one value. */
  datatype OptionState = OptionState(
    configFilePath: string, executeCmds: seq<string>, executeLists: seq<string>,
    listLists: seq<string>, listCommands: seq<string>, logFilePath: string,
    hostsFilePath: string, cmdStdOut: bool, cronEnabled: bool, backyLogLvl: Option<string>)

  /** The run-time configuration. */
  class ConfigOpts {
    var configFilePath: string
    var executeCmds: seq<string>
    var executeLists: seq<string>
    /** List.Lists and List.Commands */
    var listLists: seq<string>
    var listCommands: seq<string>
    var logFilePath: string
    var hostsFilePath: string
    var cmdStdOut: bool
    var cronEnabled: bool
    var backyLogLvl: Option<string>

    var cmds: map<string, Command>
    var lists: map<string, CmdList>
    var hosts: map<string, Ssh.Host>
    var vaultKeys: seq<Utils.VaultKey>
    var mailConfig: map<string, MailConfig>
    var matrixConfig: map<string, MatrixConfig>
    /** GoCron.BindAddress and GoCron.Port */
    var bindAddress: string
    var cronPort: int

    constructor ()
      ensures Options() == OptionState("", [], [], [], [], "", "", false, false, None)
      ensures cmds == map[] && lists == map[] && hosts == map[] && vaultKeys == []
      ensures mailConfig == map[] && matrixConfig == map[] && bindAddress == "" && cronPort == 0
    {
      configFilePath := "";
      executeCmds := [];
      executeLists := [];
      listLists := [];
      listCommands := [];
      logFilePath := "";
      hostsFilePath := "";
      cmdStdOut := false;
      cronEnabled := false;
      backyLogLvl := None;
      cmds := map[];
      lists := map[];
      hosts := map[];
      vaultKeys := [];
      mailConfig := map[];
      matrixConfig := map[];
      bindAddress := "";
      cronPort := 0;
    }

    function Options(): OptionState
      reads this
    {
      OptionState(configFilePath, executeCmds, executeLists, listLists, listCommands, logFilePath,
                  hostsFilePath, cmdStdOut, cronEnabled, backyLogLvl)
    }
  }
}
