# Backy core, modelled in Dafny

Backy runs named shell commands, alone or as ordered lists, on the local
machine or on SSH hosts. It runs their hooks, sends notifications about the
outcome, and can schedule lists by cron. This project models the decision
logic of that program. Process spawning, SSH, YAML loading, the vault
client, the scheduler and the notification transports become parameters
(outcome oracles), and the model proves what the logic does with their
answers.

The modules follow the Go packages:

- `CommandTypes` (commandtype.dfy): the `CommandType` enum and its string codec.
- `LineInFile` (lineinfile.dfy): `lineInString`.
- `Metrics` (metrics.dfy): the integer counters.
- `BackyTypes` (types.dfy): `Command`, `CmdList` and `ConfigOpts`. Each is a class, because the program updates them in place.
- `Ssh` (ssh.dfy): the host-parameter fallback chains, the script buffers and the remote command string. `Host` is a class.
- `Config` (config.dfy): list validation and filtering, proxy-host insertion, vault-key parsing, the key-path helpers, default config files and the vault token rule.
- `CmdProcessing` (processcmds.dfy): `processCmds`, `processHooks` and `detectOSType`.
- `Utils`, `ConfigOptions` and `CommandInfo`: the directive, environment and command-info rewriting of utils.go.
- `ListRuns` and `CmdRuns`: the orchestration of backy.go, as an event trace (`Run`, `Hook`, `NotifyErr`, `NotifySucc`, and `Crash` for a nil dereference).
- `Notification` and `CronMode`: notification-id resolution, the jobs cron mode creates, and its bind address.
- `Apt`, `Yum`, `Dnf`, `PkgMan` and `PkgCommon`: the package-manager argv builders and output parsers, and their factory.
- `LinuxUsers` and `UserMan`: the useradd/usermod builders.
- `FetchCache`, `FetchOptions`, `FetchS3`, `FetchDispatch` and `ConfigFetcher`: the two fetcher packages.
- `Wrappers`, `Strs` and `Platform`: `Option`/`Result`, the Go `strings`/`bufio` functions the code relies on, and the host-OS oracle.

Each `Command`'s run is an oracle `exec(name, host)`. It returns whether the
error was nil, plus the output lines. Map iteration is a parameter `keys`
that enumerates the map's keys in some order, because Go's order is
unspecified.

## Model

| member | source | states |
|---|---|---|
| `CommandTypes.String` | pkg/backy/commandtype_enumer.go:11-22 | each of the six values 0..5 gets its table name (`""`, `script`, `scriptFile`, `remoteScript`, `package`, `user`), and any other value is rendered `CommandType(i)` |
| `CommandTypes.NameToValueKeys` | pkg/backy/commandtype_enumer.go:39-52 | the name-to-value map has exactly the six names and their lower-case forms as keys, each mapped to its value |
| `CommandTypes.IsACommandType` | pkg/backy/commandtype_enumer.go:88-95 | an enum value is valid iff it lies in 0..5 |
| `CommandTypes.CommandTypeStrings` | pkg/backy/commandtype_enumer.go:81-85 | the six names in enum order, each equal to `String` of the value at that position |
| `CommandTypes.CommandTypeString` | pkg/backy/commandtype_enumer.go:64-73 | decoding succeeds iff the string or its lower-case form is a generated name, and then gives a valid value; otherwise the value is 0 and the error is "`s` does not belong to CommandType values" |
| `CommandTypes.MarshalText` | pkg/backy/commandtype_enumer.go:115-117 | a valid value is rendered as a name that the name-to-value map sends back to it; any other value as `CommandType(n)` |
| `CommandTypes.UnmarshalText` | pkg/backy/commandtype_enumer.go:120-124 | the receiver gets a valid value when there is no error and 0 when there is one; an exact generated name gives its value with no error |
| `CommandTypes.StringRoundTrip` | pkg/backy/commandtype_enumer.go:64-73 | decoding the name of any valid value gives that value and no error |
| `CommandTypes.TextRoundTrip` | pkg/backy/commandtype_enumer.go:115-124 | `UnmarshalText(MarshalText(i))` gives `i` with no error for every valid `i` |
| `CommandTypes.CaseInsensitive` | pkg/backy/commandtype_enumer.go:64-72 | any string whose lower-case form is a lower-case name decodes to that value, through the `ToLower` fallback |
| `CommandTypes.UpperCaseExample` | pkg/backy/commandtype_enumer.go:69-71 | `"SCRIPTFILE"` decodes to `ScriptFileCT` |
| `CommandTypes.UnknownName` | pkg/backy/commandtype_enumer.go:72 | a string that is no name in either case decodes to 0 with an error |
| `LineInFile.Replaced` | pkg/backy/lineinfile.go:68-76 | the same number of lines, each line replaced by `line` exactly when it matches and kept otherwise |
| `LineInFile.LineInString` | pkg/backy/lineinfile.go:62-81 | the scanner loop returns the rewritten text: the replaced lines, `line` appended when nothing matched, joined with newlines and newline-terminated |
| `LineInFile.ReplacesMatches` | pkg/backy/lineinfile.go:68-76 | every input line is kept in its place, or replaced by `line` when it matches |
| `LineInFile.AppendsWhenNoMatch` | pkg/backy/lineinfile.go:77-79 | when no line matches, `line` is the last output line and the input lines precede it unchanged |
| `LineInFile.LineCount` | pkg/backy/lineinfile.go:68-79 | the output has as many lines as the input, plus one exactly when nothing matched |
| `LineInFile.Terminates` | pkg/backy/lineinfile.go:80 | the output always ends in a newline, and empty content gives `line` plus a newline |
| `LineInFile.OutputPlain` | pkg/backy/lineinfile.go:68-80 | newline-free input lines and `line` give newline-free output lines, so the output rescans to the same lines |
| `LineInFile.OutputMatches` | pkg/backy/lineinfile.go:68-79 | when `line` matches the pattern, some output line matches |
| `LineInFile.OutputStable` | pkg/backy/lineinfile.go:68-76 | when `line` matches, replacing again changes none of the output lines |
| `LineInFile.Idempotent` | pkg/backy/lineinfile.go:62-81 | when `line` matches the pattern, applying the rewrite twice equals applying it once |
| `Metrics.Inc64` | pkg/backy/metrics.go:51-55 | a 64-bit unsigned counter increment: the successor below 2^64, and 0 at the wrap |
| `Metrics.Metrics.constructor` | pkg/backy/metrics.go:28-39 | fresh metrics have all counters 0, no finish dates, and the start date set to now |
| `Metrics.Metrics.Update` | pkg/backy/metrics.go:50-58 | on any counters, the total and exactly one of the success or failure counters go up by one (uint64, wrapping at 2^64), the finish date is set and the other dates are unchanged; counters whose total was the sum of successes and failures keep that relation |
| `Metrics.SuccessesPlusFailures` | pkg/backy/metrics.go:50-56 | over any run sequence, the successes and failures add up to the number of runs |
| `Metrics.RecordRuns` | pkg/backy/metrics.go:28-56 | fresh metrics updated once per run (fewer than 2^64) count the runs, the successes and the failures exactly |
| `Metrics.MetricFile.constructor` | pkg/backy/metrics.go:41-48 | a metrics file starts with its file name and empty command and list maps |
| `BackyTypes.Command.HostString` | pkg/backy/backy.go:237-243 | the string view of the optional host: `""` when none is set, else its value |
| `PkgCommon.Names` | pkg/pkgman/apt/apt.go:36-38 | the package names in order, one per package |
| `UserMan.NewUserManager` | pkg/usermanager/userman.go:24-36 | a Linux manager exactly for `"linux"` or `"Linux"`, and otherwise the "not recognized" error naming the system |
| `UserMan.UpperCaseRejected` | pkg/usermanager/userman.go:26-35 | `"LINUX"` is not recognized: the match is on two spellings, not case-insensitive |
| `LinuxUsers.Flag` | pkg/usermanager/linux/linux.go:25-31 | an option and its value, or nothing when the value is empty |
| `LinuxUsers.GroupsFlag` | pkg/usermanager/linux/linux.go:33-35 | `--groups` with the comma-joined groups, or nothing when there are none |
| `LinuxUsers.AddUser` | pkg/usermanager/linux/linux.go:18-50 | `useradd` with, in order, `--system`, home, shell, groups, the extra arguments, `-m`, and the user name last |
| `LinuxUsers.AddUserFlags` | pkg/usermanager/linux/linux.go:21-44 | `--system` is in the argv iff a system account is asked for, and `-m` iff a home directory is to be created |
| `LinuxUsers.ModifyPassword` | pkg/usermanager/linux/linux.go:52-59 | `chpasswd` fed `user:password`; the given password is kept, and an empty one is replaced by the 20-character generated one, which is returned |
| `LinuxUsers.RemoveUser` | pkg/usermanager/linux/linux.go:62-66 | `userdel` with the user name as its only argument |
| `LinuxUsers.ModifyUser` | pkg/usermanager/linux/linux.go:69-89 | `usermod` with home, shell and groups, each only when given, and the user name last |
| `LinuxUsers.UserExists` | pkg/usermanager/linux/linux.go:92-95 | `id` with the user name as its only argument |
| `Apt.AptManager.constructor` | pkg/pkgman/apt/apt.go:25-30 | a new manager uses authentication with `sudo` |
| `Apt.AptManager.PrependAuthCommand` | pkg/pkgman/apt/apt.go:94-99 | `authCommand baseCmd` when authentication is on, else the base command |
| `Apt.AptManager.Install` | pkg/pkgman/apt/apt.go:33-44 | `update && <cmd> install -y`, the package names in order, then the extra arguments |
| `Apt.AptManager.Remove` | pkg/pkgman/apt/apt.go:47-57 | `remove -y`, the package names, then the extra arguments |
| `Apt.AptManager.Upgrade` | pkg/pkgman/apt/apt.go:59-67 | `update && <cmd> install --only-upgrade -y` and the package names |
| `Apt.AptManager.CheckVersion` | pkg/pkgman/apt/apt.go:69-77 | `apt-cache policy` with the package names |
| `Apt.AptManager.UpgradeAll` | pkg/pkgman/apt/apt.go:80-84 | `update && <cmd> upgrade -y` |
| `Apt.AptManager.SetUseAuth` | pkg/pkgman/apt/apt.go:102-104 | sets the flag and leaves the command alone |
| `Apt.AptManager.SetAuthCommand` | pkg/pkgman/apt/apt.go:107-109 | sets the command and leaves the flag alone |
| `Apt.AptManager.ParseRemotePackageManagerVersionOutput` | pkg/pkgman/apt/apt.go:112-156 | the scanner loop returns the packages and errors of the line-by-line policy parse |
| `Apt.ParseErrors` | pkg/pkgman/apt/apt.go:120-122 | output that says "Unable to locate package" gives no packages and exactly one error; any other output gives no error |
| `Apt.RecordOnSecondMarker` | pkg/pkgman/apt/apt.go:132-152 | a record is appended exactly when the count of Installed/Candidate lines reaches two, and the count then restarts at 0 |
| `Apt.BlockStep` | pkg/pkgman/apt/apt.go:126-152 | the name line and the two version lines of one package emit exactly its record, with trimmed versions and their comparison |
| `Apt.FoldBlocks` | pkg/pkgman/apt/apt.go:126-153 | the lines of any sequence of well-formed package blocks leave one record per block, in order |
| `Apt.ParsesRenderedOutput` | pkg/pkgman/apt/apt.go:112-156 | rendered `apt-cache policy` output of well-formed packages parses back to one record per package, in order, with no error |
| `Yum.YumManager.constructor` | pkg/pkgman/yum/yum.go:21-26 | a new manager uses authentication with `sudo` |
| `Yum.YumManager.PrependAuthCommand` | pkg/pkgman/yum/yum.go:126-131 | `authCommand baseCmd` when authentication is on, else the base command |
| `Yum.YumManager.Install` | pkg/pkgman/yum/yum.go:36-47 | `yum install -y`, the package names, then the extra arguments |
| `Yum.YumManager.Remove` | pkg/pkgman/yum/yum.go:50-61 | `yum remove -y`, the package names, then the extra arguments |
| `Yum.YumManager.Upgrade` | pkg/pkgman/yum/yum.go:64-72 | `yum update -y` and the package names |
| `Yum.YumManager.UpgradeAll` | pkg/pkgman/yum/yum.go:75-79 | `yum update -y` |
| `Yum.YumManager.CheckVersion` | pkg/pkgman/yum/yum.go:82-90 | `yum info` and the package names |
| `Yum.YumManager.SetUseAuth` | pkg/pkgman/yum/yum.go:134-136 | sets the flag and leaves the command alone |
| `Yum.YumManager.SetAuthCommand` | pkg/pkgman/yum/yum.go:139-141 | sets the command and leaves the flag alone |
| `Yum.VersionOf` | pkg/pkgman/yum/yum.go:105-116 | a match renders as `version-release` (never empty), and no match as `""` |
| `Yum.ParseRemotePackageManagerVersionOutput` | pkg/pkgman/yum/yum.go:93-123 | never any packages; "No matching packages to list" gives exactly one error, and otherwise there is an error exactly when neither the installed nor the available version matched |
| `Dnf.Versioned` | pkg/pkgman/dnf/dnf.go:36-48 | `pkg-version` when a version is given, else `pkg` |
| `Dnf.DnfManager.constructor` | pkg/pkgman/dnf/dnf.go:21-26 | a new manager uses authentication with `sudo` |
| `Dnf.DnfManager.PrependAuthCommand` | pkg/pkgman/dnf/dnf.go:124-129 | `authCommand baseCmd` when authentication is on, else the base command |
| `Dnf.DnfManager.Install` | pkg/pkgman/dnf/dnf.go:36-48 | `dnf install -y` with the versioned package, then the extra arguments |
| `Dnf.DnfManager.Remove` | pkg/pkgman/dnf/dnf.go:51-58 | `dnf remove -y` with the package, then the extra arguments |
| `Dnf.DnfManager.Upgrade` | pkg/pkgman/dnf/dnf.go:61-70 | `dnf update -y` with the versioned package |
| `Dnf.DnfManager.UpgradeAll` | pkg/pkgman/dnf/dnf.go:73-77 | `dnf update -y` |
| `Dnf.DnfManager.CheckVersion` | pkg/pkgman/dnf/dnf.go:80-85 | `dnf info` with the package; the version is not used |
| `Dnf.DnfManager.SetUseAuth` | pkg/pkgman/dnf/dnf.go:132-134 | sets the flag and leaves the command alone |
| `Dnf.DnfManager.SetAuthCommand` | pkg/pkgman/dnf/dnf.go:137-139 | sets the command and leaves the flag alone |
| `Dnf.Parse` | pkg/pkgman/dnf/dnf.go:88-121 | "No matching packages to list" is an error; otherwise a record of the installed and available versions, never marked matched, or an error exactly when neither matched |
| `PkgMan.LastOptionWins` | pkg/pkgman/pkgman.go:46-67 | after a non-empty option list, authentication is on iff the last option is `WithAuth`, and with only `WithoutAuth` options the command is unchanged |
| `PkgMan.Apply` | pkg/pkgman/pkgman.go:46-67 | one option updates the manager's flag and command as that option prescribes |
| `PkgMan.Configure` | pkg/pkgman/apt/apt.go:87-91 | applying the options one by one leaves the flag and command the options prescribe in order |
| `PkgMan.PackageManagerFactory` | pkg/pkgman/pkgman.go:26-43 | a fresh apt, yum or dnf manager exactly for that name, configured by the options from the `sudo` default, and otherwise the "unsupported package manager" error |
| `Ssh.Host.constructor` | pkg/backy/ssh.go:354 | `&Host{Host: h}`: only the host name is set, every other field is empty or zero |
| `Ssh.Host.GetSshUserFromConfig` | pkg/backy/ssh.go:144-163 | the user becomes the resolved user chain value, the client configuration's user equals it, and no other field changes |
| `Ssh.ResolveUser` | pkg/backy/ssh.go:144-163 | a non-blank user is kept; a blank one takes the config file's non-blank user; a result that is still blank is the current user |
| `Ssh.Host.GetPrivateKeyFileFromConfig` | pkg/backy/ssh.go:226-242 | the key path becomes the resolved identity-file chain value, and no other field changes |
| `Ssh.ResolvePrivateKey` | pkg/backy/ssh.go:226-242 | an explicit path is kept after home expansion; without one and without config entries the key is `~/.ssh/id_rsa`, expanded |
| `Ssh.Host.GetPort` | pkg/backy/ssh.go:246-265 | the port becomes the resolved port chain value, a non-zero port is kept, and no other field changes |
| `Ssh.ParseUint16` | pkg/backy/ssh.go:263-264 | `strconv.ParseUint(s, 10, 16)` as the code uses it: the number for digit strings below 65536, 65535 when it is out of range, 0 for anything else |
| `Ssh.ParsePrinted` | pkg/backy/ssh.go:247-264 | a port printed in decimal parses back to itself, so a non-zero port survives the round trip |
| `Ssh.ResolvePort` | pkg/backy/ssh.go:246-265 | a non-zero port is kept; a zero port takes the parsed config-file port, and with neither the config file nor the defaults it is 22 |
| `Ssh.PortExamples` | pkg/backy/ssh.go:263-264 | a non-numeric port gives 0 and an out-of-range one 65535 |
| `Ssh.Host.CombineHostNameWithPort` | pkg/backy/ssh.go:267-274 | the host name becomes the combined name, which ends with `:<port>`, and no other field changes |
| `Ssh.CombinedHostName` | pkg/backy/ssh.go:267-274 | the result starts with the host name and ends with `:<port>` |
| `Ssh.CombineIdempotent` | pkg/backy/ssh.go:267-274 | combining twice is combining once |
| `Ssh.Host.GetHostName` | pkg/backy/ssh.go:276-284 | the host name becomes the resolved host-name chain value, and no other field changes |
| `Ssh.ResolveHostName` | pkg/backy/ssh.go:276-284 | a non-empty host name is kept, else the config file's, else the defaults' |
| `Ssh.Host.GetKnownHosts` | pkg/backy/ssh.go:318-326 | the known-hosts path becomes the home-expanded configured path or `~/.ssh/known_hosts`, and the result says whether the expansion succeeded |
| `Ssh.KnownHostsSource` | pkg/backy/ssh.go:318-326 | a non-blank configured path is used, and a blank one gives `~/.ssh/known_hosts` |
| `Ssh.ConfigProxyJump` | pkg/backy/ssh.go:339-342 | the config file's ProxyJump when it is set, otherwise the defaults' |
| `Ssh.Host.GetProxyJumpFromConfig` | pkg/backy/ssh.go:337-361 | with existing proxies or several jump entries nothing is appended; otherwise the configured jump host is appended when known, a fresh `&Host{Host: pj}` when it is not and `pj` is non-empty, nothing when `pj` is empty; only ProxyJump and ProxyHost change |
| `Ssh.IsHostLocal` | pkg/backy/ssh.go:815-818 | local exactly when the lower-cased host is `""`, `localhost` or `127.0.0.1` |
| `Ssh.LocalHostExamples` | pkg/backy/ssh.go:815-818 | `LocalHost` is local; `127.0.0.2` and `db` are not |
| `Ssh.ArgsStr` | pkg/backy/backy.go:248-250 | the argument text grows by a space and the argument for each argument, in order |
| `Ssh.ArgsStrJoin` | pkg/backy/backy.go:248-250 | the argument text of a non-empty list is one space followed by the space-joined arguments |
| `Ssh.RemoteCommandString` | pkg/backy/ssh.go:503-508 | `<shell> -c '<cmd> <args>'` with a shell, `<cmd> <args>` without |
| `Ssh.Label` | pkg/backy/ssh.go:631-636 | an invalid type is labelled `command`, a valid one `<name> command` |
| `Ssh.LabelExamples` | pkg/backy/ssh.go:631-636 | `scriptFile command`, ` command` for the default type, `command` for 7 |
| `Ssh.ReadFileToBuffer` | pkg/backy/ssh.go:737-754 | nothing when home expansion or the read fails, otherwise the contents of the expanded path |
| `Ssh.PrepareScriptBuffer` | pkg/backy/ssh.go:677-691 | without an env file the script text and a newline; with one, its contents, a newline, then the script and a newline; an unreadable env file is an error |
| `Ssh.PrepareScriptFileBuffer` | pkg/backy/ssh.go:694-715 | an error exactly when the env file or the script file cannot be read; otherwise the env contents and a newline (when set) followed by the script file, with nothing appended |
| `Ssh.CollectOutput` | pkg/backy/ssh.go:757-768 | the scanner loop returns one element per scanned line, in order, whatever the logging flag is |
| `Utils.FullPath` | pkg/backy/utils.go:242-262 | the path is trimmed; `~` becomes the home directory and `~/x` becomes home joined with `x`; any other path is returned trimmed with no error; a failed home lookup returns the trimmed path with an error |
| `Utils.InteriorTildeKept` | pkg/backy/utils.go:242-262 | `/a/~/b` and `~user/x` are returned unchanged |
| `Utils.FullPathOfTrimmed` | pkg/backy/utils.go:243 | expanding an already trimmed path gives the same result |
| `Utils.DirectiveFile` | pkg/backy/utils.go:454-464 | the file a file directive names: nothing when home expansion fails, an absolute path as it is, and any other path under the configuration directory |
| `Utils.DirectiveValue` | pkg/backy/utils.go:429-482 | a value not enclosed in `%{` and `}%` is returned verbatim; an enclosed one has its variables replaced and then passes through the env, the file and the vault steps in sequence, each on the previous step's output, with a failed file step giving `""` |
| `Utils.EnvPrefixExcludesOthers` | pkg/backy/config.go:25-28 | a value starting with the env prefix starts with neither the file nor the vault prefix |
| `Utils.DisallowedEnvUnchanged` | pkg/backy/utils.go:436-443 | an env directive where env is not admitted is left as it is |
| `Utils.DisallowedFileUnchanged` | pkg/backy/utils.go:446-470 | a file directive where file is not admitted is left as it is |
| `Utils.DisallowedVaultUnchanged` | pkg/backy/utils.go:472-479 | a vault directive where vault is not admitted is left as it is |
| `Utils.FailedReadIsEmpty` | pkg/backy/utils.go:452-467 | a file directive whose file cannot be expanded or read resolves to `""` |
| `Utils.EnvThenVault` | pkg/backy/utils.go:436-479 | the steps are not exclusive: an env variable whose value is a vault directive is resolved again, to that vault key's secret |
| `Utils.VaultKeyData` | pkg/backy/utils.go:511-518 | the first vault key with the name, or the "not found in vault keys" error exactly when no key has it |
| `Utils.VaultSecret` | pkg/backy/utils.go:484-509 | a value type other than KVv1 or KVv2 is an error; a secret is the entry named by the key in the data read from that engine, mount and path |
| `Utils.GetVaultKey` | pkg/backy/utils.go:520-536 | the secret of the first key with the name, and `""` when the key is unknown or the secret cannot be read |
| `Utils.UnknownKeyIsEmpty` | pkg/backy/utils.go:522-527 | a name that no vault key has resolves to `""` |
| `Utils.ExpandEntry` | pkg/backy/utils.go:307-313 | an entry without both the env prefix and the `}%` end is left unchanged, and one with them is the expansion of its interior |
| `Utils.ExpandTrimsCutset` | pkg/backy/utils.go:309-311 | the interior is cut by character set, not by suffix: in `%{env:$A%}%` the text's own `%` is dropped as well |
| `Utils.ExpandEnvVars` | pkg/backy/utils.go:296-316 | the loop rewrites every entry of the array in place by the entry rule, and the length does not change |
| `Utils.FilePairs` | pkg/backy/utils.go:145-162 | no env-file entries without a file or when opening or parsing it fails, otherwise one `k=v` entry per parsed pair |
| `Utils.EnvEntry` | pkg/backy/utils.go:166-170 | an Environment element without `=` contributes nothing, and one with it exactly one entry |
| `Utils.EnvEntriesCount` | pkg/backy/utils.go:166-171 | the Environment list contributes exactly one entry per element holding `=` |
| `Utils.SplitAssignment` | pkg/backy/utils.go:168 | `k=v` splits on `=` into two fields and `k=v=v` into three |
| `Utils.SecondFieldOnly` | pkg/backy/utils.go:167-169 | `A=b=b` contributes `A=b`, only the second field being kept as the value, and `FLAG` contributes nothing |
| `Utils.InjectEnvIntoLocalCmd` | pkg/backy/utils.go:144-173 | the process environment is the env-file pairs, then the Environment entries in order, then the inherited environment, appended last |
| `Utils.PrependEnvVars` | pkg/backy/utils.go:175-202 | the process ends exactly when the env file cannot be expanded, opened or parsed, or an Environment element has no `=`; otherwise the text ends with `command` and the space-joined arguments |
| `Utils.EnvLineExample` | pkg/backy/utils.go:196-199 | an element `k=v` writes the line `k=v \n` |
| `Utils.EnvPrefixExample` | pkg/backy/utils.go:196-199 | the elements `A=1` and `B=2` write `A=1 \nB=2 \n` |
| `Utils.PrependWithoutFile` | pkg/backy/utils.go:195-201 | without an env file and with only `k=v` elements, the Environment lines come first and the command with its arguments last |
| `Utils.PrependWithFile` | pkg/backy/utils.go:175-202 | with an env file that expands, opens and parses, and only `k=v` elements: the env-file lines, then the Environment lines, then the command with its arguments |
| `Utils.FilePrefixOne` | pkg/backy/utils.go:192-193 | one env-file pair gives exactly its own "k=v " line, the value resolved with vault and env directives |
| `Utils.FilePrefixAppend` | pkg/backy/utils.go:192-194 | the env-file part of two runs of pairs is the two parts concatenated |
| `Utils.FilePrefixAt` | pkg/backy/utils.go:192-194 | the line of each pair sits after the lines of the pairs before it and before those after it |
| `Utils.PrependLayout` | pkg/backy/utils.go:195-201 | with `A=1` and `B=2` the whole text is `A=1 \nB=2 \n` then the command and arguments |
| `Utils.ContainsString` | pkg/backy/utils.go:204-211 | true exactly when the element is in the slice |
| `ConfigOptions.ApplyAllAppend` | pkg/backy/utils.go:92-101 | applying two runs of options one after the other is applying their concatenation |
| `ConfigOptions.NilSkipped` | pkg/backy/utils.go:95-99 | a nil option is skipped: removing it from the list changes nothing |
| `ConfigOptions.OptionsAppend` | pkg/backy/utils.go:30-49 | the commands and lists to execute are the initial ones followed by those of every AddCommands and AddCommandLists option in order; LogLvl never sets the new options' level and the path is kept |
| `ConfigOptions.ApplyOption` | pkg/backy/utils.go:30-90 | one option changes the option fields as it prescribes, and LogLvl sets the level of the options it was taken from, not of the ones it is applied to |
| `ConfigOptions.NewConfigOptions` | pkg/backy/utils.go:92-101 | fresh options with the path set and the non-nil options applied in order, no commands, lists or hosts, and each LogLvl receiver holding the level of its last LogLvl option |
| `CommandInfo.PackageCall` | pkg/backy/utils.go:322-331 | an apt or yum manager builds a command exactly for install, remove, upgrade and checkVersion; a dnf manager's builders take a single package, so none is called here |
| `CommandInfo.PackageCallKeepsArgs` | pkg/backy/utils.go:323-326 | install and remove place the package names and then the command's own arguments at the end of the argv |
| `CommandInfo.AddUserFlagsSwapped` | pkg/backy/utils.go:338-345 | as written, a system account without a home directory asks `useradd` for a home directory and no system account, while the corrected call asks for the system account and no home |
| `CommandInfo.AddUserCallAsWritten` | pkg/backy/utils.go:337-345 | the add call is `useradd` with the user name last; as written, UserCreateHome puts `--system` first and UserIsSystem puts `-m` just before the name |
| `CommandInfo.UserCall` | pkg/backy/utils.go:336-358 | the user operation picks the call: add gives `useradd` with the swapped flags, modify `usermod`, checkIfExists `id <user>`, delete `userdel <user>`, password `chpasswd` with `user:password` on stdin and the password generated only when none is given; only password touches stdin and the password; any other operation leaves the info as it is; the set-flags are not changed here |
| `CommandInfo.AddUserCallFlags` | pkg/usermanager/linux/linux.go:18-50 | the corrected call asks for a system account iff UserIsSystem, and for a home directory iff UserCreateHome |
| `CommandInfo.AddCommand` | pkg/backy/utils.go:336-345 | an add operation becomes `useradd` ending with the user name, asking for a home directory iff UserIsSystem and a system account iff UserCreateHome, as written, with stdin and password unchanged |
| `CommandInfo.SetInfo` | pkg/backy/utils.go:318-362 | a package command comes out with its package flag set and a user command with its user flag set, each leaving the other flag alone; an add builds `useradd` with the flags swapped, as written |
| `CommandInfo.SetInfoIdempotent` | pkg/backy/utils.go:318-362 | a second call changes nothing |
| `CommandInfo.OtherTypesUntouched` | pkg/backy/utils.go:320-334 | commands that are neither package nor user commands are left as they are |
| `CommandInfo.FlagStopsRebuild` | pkg/backy/utils.go:320-335 | once the flag of its kind is set, Cmd, Args, stdin and the password are left alone |
| `CommandInfo.PasswordCommand` | pkg/backy/utils.go:356-357 | a password command becomes `chpasswd` with `user:password` on stdin, generating the password only when none is given, and keeps its arguments |
| `CommandInfo.RemoveBuildsNothing` | pkg/backy/utils.go:336-358 | the accepted `remove` operation builds no command: only the flag changes |
| `CommandInfo.SetPackageInfo` | pkg/backy/utils.go:320-332 | the package half of the setter updates the command's info as the value model says, and no other field |
| `CommandInfo.SetUserInfo` | pkg/backy/utils.go:334-359 | the user half of the setter updates the command's info as the value model says, with `useradd` flags swapped as written, and no other field |
| `CommandInfo.SetCommandInfo` | pkg/backy/utils.go:318-362 | Cmd, Args, stdin, UserPassword and the flags become those of the value model, where an add asks for `-m` iff UserIsSystem and `--system` iff UserCreateHome, and nothing else of the command changes |
| `CommandInfo.PackageIndex` | pkg/backy/utils.go:419-427 | the index of the first package with the name, and -1 exactly when none has it |
| `CommandInfo.GetPackageIndexFromCommand` | pkg/backy/utils.go:419-427 | the loop returns the first matching index, or -1 |
| `CommandInfo.IndexByNames` | pkg/backy/utils.go:419-427 | only the package names decide the index |
| `CommandInfo.PackageErrors` | pkg/backy/utils.go:375-411 | each reported package adds at most one error |
| `CommandInfo.CopyChecks` | pkg/backy/utils.go:380 | copying the reported checks keeps the number, names and specified versions of the command's packages |
| `CommandInfo.VersionErrorsIff` | pkg/backy/utils.go:374-411 | an error is reported iff some reported package found in the command has a specified version that neither compiles well and equals nor matches the installed one, or has no version while installed and candidate differ |
| `CommandInfo.UnknownPackageSkipped` | pkg/backy/utils.go:375-379 | a reported package the command does not list adds no error and changes no package |
| `CommandInfo.ParsePackageVersion` | pkg/backy/utils.go:364-417 | a failed parse gives the wrapped error with no version errors and no change; otherwise the errors are the version errors in order, the packages receive the reported checks, and nothing else changes |
| `Config.ListErrorsCount` | pkg/backy/config.go:371-375 | a list's order gives exactly one error per position that names no defined command |
| `Config.ListErrorsNone` | pkg/backy/config.go:371-375 | a list gives no error iff every name in its order is a defined command |
| `Config.ValidationErrorsNone` | pkg/backy/config.go:364-381 | there is no error, and so no fatal exit, iff every list that is not pruned names only defined commands |
| `Config.ValidationErrorsSnoc` | pkg/backy/config.go:366-376 | visiting one more list adds its order's errors when it is kept, and nothing when it is pruned |
| `Config.KeptAfterAll` | pkg/backy/config.go:366-370 | once every key has been visited, the remaining lists are exactly the kept ones, whatever the visiting order |
| `Config.Kept` | pkg/backy/config.go:367-370 | the kept lists are exactly the lists that are not pruned (in cron mode, those whose trimmed schedule is not blank), unchanged |
| `Config.CheckOrder` | pkg/backy/config.go:371-375 | the loop collects the errors of one list's order, in order |
| `Config.ValidateLists` | pkg/backy/config.go:366-376 | the loop over the lists keeps exactly the kept lists and collects the errors of those lists in visiting order |
| `Config.ValidateCommandLists` | pkg/backy/config.go:364-381 | the lists become the kept ones, the errors are those of the kept lists, and commands, hosts and options are unchanged |
| `Config.FilteredKeys` | pkg/backy/config.go:383-391 | exactly the requested lists remain, unchanged, or all of them when none was requested |
| `Config.FilterIdempotent` | pkg/backy/config.go:383-391 | filtering a second time changes nothing |
| `Config.FilterExecuteLists` | pkg/backy/config.go:383-391 | the lists become the filtered lists, and commands, hosts and options are unchanged |
| `Config.ResolveProxyHosts` | pkg/backy/config.go:256-266 | every `,`-separated ProxyJump name is in the host map afterwards, the names that were missing as fresh `&Host{Host: h}`, existing hosts untouched, and the proxies appended to ProxyHost in listed order; nothing else of the host changes |
| `Config.ResolveHostConfigs` | pkg/backy/config.go:245-254 | every configured host keeps its key and its object; an empty Host takes the key; every ProxyJump name of a host is in the map afterwards; a host with a ProxyJump has the hosts of its names appended to its proxies in order, and a host without one keeps its proxies; no other field of a configured host changes; every inserted host is a fresh `&Host{Host: h}` under its own name; commands, lists and options are unchanged |
| `Config.ResolveHost` | pkg/backy/config.go:247-252 | one turn of the loop: the host ends as the pass leaves it (Host, ProxyHost, every other field as before), and the map only grows by fresh `&Host{Host: h}` entries |
| `Config.IsVaultKey` | pkg/backy/config.go:475-478 | the trimmed string without its `vault:` prefix, and whether the trimmed string had that prefix |
| `Config.ParseVaultKey` | pkg/backy/config.go:480-492 | a string that is not a vault reference gives no key and no error; a reference gives the first key with the name, or the "not found in vault keys" error exactly when no key has it |
| `Config.VaultKeyTrimmed` | pkg/backy/config.go:476 | spaces around a vault reference do not change the result |
| `Config.RemoteURLExamples` | pkg/backy/config.go:300-302 | `s3://` and `https://` paths are remote; `httpdocs/…` and `/etc/…` are not |
| `Config.NestedConfig` | pkg/backy/config.go:392-394 | the nested section, a dot, then the key |
| `Config.NestedConfigSplits` | pkg/backy/config.go:392-394 | a path of two dot-free parts splits on `.` back into them |
| `Config.CmdFromConfig` | pkg/backy/config.go:396-398 | the key under `commands.`, recovered by removing that prefix |
| `Config.CmdListFromConfig` | pkg/backy/config.go:407-409 | the list under `cmd-lists.`, recovered by removing that prefix |
| `Config.LoggingKeyFromConfig` | pkg/backy/config.go:400-405 | `logging` for the empty key, otherwise the key under `logging.` |
| `Config.LoadDefaultConfigFiles` | pkg/backy/config.go:106-126 | the loop stops at the first candidate that both fetches and loads, and exits exactly when every candidate failed |
| `Config.VaultAddress` | pkg/backy/config.go:417-420 | the configured address unless it is blank, else `VAULT_ADDR` |
| `Config.VaultToken` | pkg/backy/config.go:411-435 | nothing when vault is disabled; the client error when the client cannot be made; the configured token unless blank, else `VAULT_TOKEN`; a blank token is the "no token found" error, so a token in use is never blank |
| `CmdProcessing.FirstMissing` | pkg/backy/config.go:630-640 | the position of the first hook that names no command: every hook before it is defined, and the hook there is not |
| `CmdProcessing.FirstMissingAt` | pkg/backy/config.go:630-640 | any position that has only defined hooks before it and a missing hook (or the end) at it is the first missing one |
| `CmdProcessing.HookResult` | pkg/backy/config.go:623-649 | processHooks returns no error iff every hook of the list names a command |
| `CmdProcessing.HookCheckPasses` | pkg/backy/config.go:521-537 | a command's hooks pass iff every error, success and final hook names a command |
| `CmdProcessing.ErrorHooksFirst` | pkg/backy/config.go:525-528 | an undefined first error hook is reported, with its "not found" message, before any other hook is looked at |
| `CmdProcessing.ProcessHooks` | pkg/backy/config.go:623-649 | the result is HookResult; hookRefs is reset to a single map for this hook type holding the hooks before the first missing one; no other field changes |
| `CmdProcessing.DetectedOS` | pkg/backy/config.go:664-675 | a detection failure is passed on; a blank output is the "empty string" error; anything else is the trimmed output, or "linux" when it contains "linux" |
| `CmdProcessing.UnameLinux` | pkg/backy/config.go:672-675 | `uname` output "Linux\n" is kept as "Linux", because the match is case sensitive |
| `CmdProcessing.CapitalNotLower` | pkg/backy/config.go:672 | "Linux" does not contain "linux" |
| `CmdProcessing.MentionsLinux` | pkg/backy/config.go:672-675 | output that contains "linux" is recorded as "linux" |
| `CmdProcessing.TrimNewline` | pkg/backy/config.go:665 | trimming removes a trailing newline from output that has no other surrounding space |
| `CmdProcessing.DetectHostOS` | pkg/backy/config.go:658-676 | a host whose OS is known is left alone; otherwise its OS becomes the detected OS, or stays as it was and the detection error is returned; no other field of the host changes |
| `CmdProcessing.DetectOSTypeAsWritten` | pkg/backy/config.go:651-676 | a command without a host gets "linux" on Linux and then panics on the nil Host, and exactly the commands without a host panic; otherwise the command's OS is kept, a configured host gets HostOS of its OS with DetectOutcome's error and no other field changed, and every other host is left alone |
| `CmdProcessing.DetectOSType` | pkg/backy/config.go:651-678 | with the nil check: a hostless command gets the local OS and no error; a command with a configured host gets that host's OS detected (HostOS) and DetectOutcome's error, and no other field of the host changes; a command with an unknown host gets nothing; every other host is left alone |
| `CmdProcessing.TargetHosts` | pkg/backy/config.go:657 | the host detectOSType looks up: the configured host of the command's Host name, or none when it has no Host or the name is not configured |
| `CmdProcessing.HostOS` | pkg/backy/config.go:658-676 | a known OS is kept; the OS afterwards is non-blank iff it was known or detection succeeded |
| `CmdProcessing.ResolveCmdHost` | pkg/backy/config.go:540-552 | a configured host is shared by the command; an unknown host is added to the map as a fresh `&Host{Host: h}` and the command gets a second, separate fresh one; existing hosts, commands, lists and options are unchanged |
| `CmdProcessing.PackageCheckPasses` | pkg/backy/config.go:555-577 | a package command passes iff it names apt, yum or dnf, one of install/remove/upgrade/checkVersion, and a package |
| `CmdProcessing.CheckPackage` | pkg/backy/config.go:555-577 | the error is PackageCheck's; on success the manager is a fresh one of the named kind, built without sudo; only that field changes |
| `CmdProcessing.UserCheckPasses` | pkg/backy/config.go:580-603 | a user command passes iff it names a user, a known user operation, and its OS is "linux" or "Linux" |
| `CmdProcessing.CheckUser` | pkg/backy/config.go:580-603 | a command with a user name and no host crashes in detectOSType, and exactly those; otherwise the error is UserCheck's for the host's OS when the host is configured, else the command's; on success the manager is the Linux one; the configured host gets HostOS when a user name is given, and only the manager, the command's OS and that host's OS may change |
| `CmdProcessing.BuildUserManager` | pkg/backy/config.go:589-600 | the error is UserCheck's for the OS of the configured host, else of the command; on success the manager is the Linux one; only the manager changes |
| `CmdProcessing.ResolveHooks` | pkg/backy/config.go:521-537 | the error is the first of the error, success and final hook checks; on success only the final hooks are kept in hookRefs |
| `CmdProcessing.ProcessTarget` | pkg/backy/config.go:554-605 | for a command whose hooks pass: a hostless user command with a user name crashes, and no other; otherwise the error is the package or user check and the command's OS is kept; on success the command is ready to run and a user command has a manager; the configured host gets HostOS exactly when detectOSType runs, and nothing else of it or of any other host changes |
| `CmdProcessing.ProcessCmd` | pkg/backy/config.go:515-605 | it crashes exactly when the hooks pass and it is a hostless user command with a user name; otherwise an empty Name takes the key, the error is the hook error, else the target error, and on success the command is Processed; commands, lists, options and existing host entries are unchanged; the command's host gets HostOS exactly when detectOSType runs and no other host changes; a host it adds is a fresh `&Host{Host: h}` under the command's Host, with the detected OS when detection runs |
| `CmdProcessing.ProcessNamed` | pkg/backy/config.go:520-605 | ProcessCmd's contract once the command has its Name: the hook step, then the host and target steps |
| `CmdProcessing.AttachAndCheck` | pkg/backy/config.go:539-605 | for a command whose hooks pass: the host and target steps crash or fail exactly as ProcessCmd states; the command's host exists afterwards and is attached; the map only grows by a fresh `&Host{Host: h}` under the command's Host |
| `CmdProcessing.ProcessCmds` | pkg/backy/config.go:512-608 | a crash means some command is a hostless user command with a user name whose hooks pass; no crash and no error means every command is Processed and none would crash; an error is the error of some command; commands, lists, options and existing host entries are unchanged; a known host OS is kept, only host OS fields may change, and every added host is a fresh `&Host{Host: h}` |
| `CmdProcessing.ProcessStep` | pkg/backy/config.go:512-514 | one turn of the loop: it crashes or fails on the current command, or every command up to it is Processed and does not crash; only the OS of the current command's host may change, a known OS is kept, and added hosts are fresh `&Host{Host: h}` entries |
| `CmdProcessing.OnlyFinalHooksKept` | pkg/backy/config.go:627-628 | because processHooks starts a fresh map on every call, a processed command has no error or success hook references left |
| `FetchCache.FirstIndex` | pkg/remotefetcher/cache.go:205-216 | the position the index map records for an entry: the entry is there and nowhere before it |
| `FetchCache.Dedup` | pkg/remotefetcher/cache.go:202-220 | the result has no repeated entry, holds exactly the entries of the input, and is no longer |
| `FetchCache.FirstIndexPrefix` | pkg/remotefetcher/cache.go:208-216 | an entry's first position is the same in any prefix that contains it |
| `FetchCache.DedupOrder` | pkg/remotefetcher/cache.go:212-216 | kept entries are in the order of their first occurrence in the input |
| `FetchCache.DedupOfDistinct` | pkg/remotefetcher/cache.go:202-220 | a sequence without repeats is returned unchanged |
| `FetchCache.DedupIdempotent` | pkg/remotefetcher/cache.go:202-220 | deduplicating twice is deduplicating once |
| `FetchCache.Unique` | pkg/remotefetcher/cache.go:202-220 | the loop with its position map computes Dedup; overwriting a kept entry with an equal one changes nothing |
| `FetchCache.LoadedLastWins` | pkg/remotefetcher/cache.go:61-63 | after loading, an item's hash maps to the item unless a later item has the same hash |
| `FetchCache.LoadedKeys` | pkg/remotefetcher/cache.go:61-63 | after loading, the keys are the old keys plus the hash of every item |
| `FetchCache.NewCache` | pkg/remotefetcher/cache.go:30-41 | a cache is returned iff the file is missing or parses; it is fresh, empty for a missing file, and filled from the entries otherwise |
| `FetchCache.Cache.constructor` | pkg/remotefetcher/cache.go:31-35 | an empty store with the given file and directory |
| `FetchCache.Cache.LoadFromFile` | pkg/remotefetcher/cache.go:43-66 | a missing file is no error and changes nothing; a read or parse error is returned and changes nothing; entries are loaded by hash |
| `FetchCache.Cache.Get` | pkg/remotefetcher/cache.go:85-99 | a hit iff the hash is stored and its file can be read; a hit returns that entry and the file's data |
| `FetchCache.Cache.Values` | pkg/remotefetcher/cache.go:72-75 | the collected entries are exactly the values of the store |
| `FetchCache.Cache.SaveToFile` | pkg/remotefetcher/cache.go:68-83 | the store is unchanged; success iff the write succeeds, and then the saved entries are the store's values without repeats |
| `FetchCache.Cache.AddDataToStore` | pkg/remotefetcher/cache.go:101-104 | the entry is stored under the hash, then saved as SaveToFile does |
| `FetchCache.Cache.Set` | pkg/remotefetcher/cache.go:108-146 | a failed data write returns an error and changes nothing; else the entry is stored under the source's URL hash, and the call succeeds iff the cache file is written, returning that entry; the content hash is not a key unless it equals the URL hash |
| `FetchCache.Cache.NewEntry` | pkg/remotefetcher/cache.go:112-132 | the entry Set records: the content hash, the data type, the URL hash, and a path in the cache directory named base name, `-`, URL hash |
| `FetchOptions.FileTypeOf` | pkg/remotefetcher/options.go:42-48 | a blank file type becomes "yaml"; any other is kept as given |
| `FetchOptions.ApplyOption` | pkg/remotefetcher/options.go:21-48 | each option sets exactly its own field to its value and leaves the other three alone |
| `FetchOptions.Untouched` | pkg/remotefetcher/configfetcher.go:28-31 | a field no option assigns keeps its value |
| `FetchOptions.LastWins` | pkg/remotefetcher/configfetcher.go:28-31 | a field ends with the value of the last option that assigns it |
| `FetchOptions.FetcherConfig.constructor` | pkg/remotefetcher/configfetcher.go:28 | the zero FetcherConfig |
| `FetchOptions.FetcherConfig.Apply` | pkg/remotefetcher/options.go:21-48 | applying one option updates the fields as ApplyOption says |
| `FetchOptions.FetcherConfig.ApplyAll` | pkg/remotefetcher/configfetcher.go:28-31 | applying the options in order gives Configure of the old fields |
| `FetchS3.ParseS3Source` | pkg/remotefetcher/s3.go:77-83 | an error (the bucket-name/object-key message) iff there is no `/`; otherwise bucket, `/` and key rebuild the source, and the bucket has no `/` |
| `FetchS3.ParseOfJoined` | pkg/remotefetcher/s3.go:77-83 | a bucket without `/` joined to any key parses back into the two |
| `FetchS3.Fetch` | pkg/remotefetcher/s3.go:43-69 | a malformed source is the format error; a missing key is ErrFileNotFound when ignoring is on and the S3 error otherwise; other failures are passed on; otherwise the body read |
| `ConfigFetcher.NewConfigFetcher` | pkg/configfetcher/configfetcher.go:15-24 | HTTP iff the source starts with "http"; S3 iff it does not and starts with "s3"; local otherwise |
| `ConfigFetcher.HttpsIsHttp` | pkg/configfetcher/configfetcher.go:16 | an "https" source is dispatched to HTTP, so the second test of the condition adds nothing |
| `ConfigFetcher.ParseS3Source` | pkg/configfetcher/s3.go:60-66 | the same parse as the remote fetcher's: an error iff there is no `/`, else the split at the first `/` |
| `ConfigFetcher.EmptyHalves` | pkg/configfetcher/s3.go:60-66 | an empty bucket or key is accepted, and further `/` stay in the key |
| `FetchDispatch.FetchFailure` | pkg/remotefetcher/configfetcher.go:52-57 | with ignoring on, any error mentioning "file not found" becomes ErrFileNotFound; every other error is passed on |
| `FetchDispatch.NotFoundStable` | pkg/remotefetcher/configfetcher.go:22 | ErrFileNotFound is itself a not-found error and maps to itself |
| `FetchDispatch.S3MissingKeyIgnored` | pkg/remotefetcher/configfetcher.go:51-56 | with ignoring on, a missing S3 key yields ErrFileNotFound from both the S3 fetcher and NewConfigFetcher |
| `FetchDispatch.NewConfigFetcher` | pkg/remotefetcher/configfetcher.go:24-69 | a local source returns the local fetcher and leaves the cache alone; an S3 client error, a fetch error (mapped by FetchFailure) and a cache hit also leave it alone; a miss stores the new entry under the URL hash and succeeds iff both writes succeed, returning the data with the entry's path |
| `Notification.SetupMail` | pkg/backy/notification.go:95-101 | a mail notifier with the configured sender and receivers, dialing Host + ":" + Port |
| `Notification.MailDialsHostPort` | pkg/backy/notification.go:96 | for a port without `:`, the SMTP address splits back into the configured host and port |
| `Notification.ServiceOf` | pkg/backy/notification.go:50-79 | a "mail" id resolves iff its id is a configured mail entry; a "matrix" id iff it is configured and its setup succeeds; any other service resolves to nothing |
| `Notification.IdSegments` | pkg/backy/notification.go:50-52 | the service and the id are the first two dot-separated segments, whatever follows them |
| `Notification.MailIdResolves` | pkg/backy/notification.go:55-62 | "mail.<id>" resolves to that entry's mail notifier exactly when the id is configured |
| `Notification.ServicesOf` | pkg/backy/notification.go:43-80 | a list's notifiers, at most one per id |
| `Notification.ServicesOfAppend` | pkg/backy/notification.go:44-80 | ids are resolved one by one: the notifiers of two id sequences are those of each, in order |
| `Notification.ServicesSound` | pkg/backy/notification.go:44-80 | every notifier comes from one of the list's ids |
| `Notification.ServicesComplete` | pkg/backy/notification.go:44-80 | every id that resolves contributes its notifier |
| `Notification.ResolveIds` | pkg/backy/notification.go:43-80 | the loop finishes iff every id holds a `.`, and then collects ServicesOf the ids |
| `Notification.SetupNotify` | pkg/backy/notification.go:34-85 | with individual commands to run, nothing changes; otherwise the program exits iff some list has an id without `.`, and else every list holds the notifiers of its ids; names are unchanged |
| `Notification.ConfigureStep` | pkg/backy/notification.go:41-85 | one list of the loop: its notifiers are configured, keeping the lists before it configured, or it holds an id without a `.` and the program exits |
| `ListRuns.Views` | pkg/backy/backy.go:460-464 | one view per configured command, under the same keys |
| `ListRuns.RunsOfAppend` | pkg/backy/backy.go:467-468 | the runs of two traces put together are the runs of each, in order |
| `ListRuns.RunsOfNoRun` | pkg/backy/backy.go:910-946 | a trace with no run events contributes no runs |
| `ListRuns.HookRuns` | pkg/backy/backy.go:928-944 | one hook event per name, in order |
| `ListRuns.HookEvents` | pkg/backy/backy.go:910-946 | every event ExecuteHooks emits is a hook of the requested kind |
| `ListRuns.HookEventsShape` | pkg/backy/backy.go:910-946 | a command without hooks runs none; of the error hooks only the first runs, because the loop returns after it; all success and final hooks run in order |
| `ListRuns.HookEventsNoRun` | pkg/backy/backy.go:916-944 | hooks run through RunCmd and never count as list runs |
| `ListRuns.ExecuteHooks` | pkg/backy/backy.go:910-946 | the loop emits exactly HookEvents for the kind |
| `ListRuns.Sweep` | pkg/backy/backy.go:459-493 | the loop over Order never crashes and keeps the last command a configured one |
| `ListRuns.Step` | pkg/backy/backy.go:460-492 | one name of Order appends that name to cmdsRan and makes its command commandExecuted; a run never crashes |
| `ListRuns.FirstFail` | pkg/backy/backy.go:470-484 | the position of the first failing command, at most the length of Order |
| `ListRuns.FirstFailIsFirst` | pkg/backy/backy.go:470-484 | every command before it succeeds and the command there fails |
| `ListRuns.Ran` | pkg/backy/backy.go:467-484 | the loop runs at most all of Order, and at least one command of a non-empty Order |
| `ListRuns.StepEvents` | pkg/backy/backy.go:467-484 | one turn adds a run of the command, then only its error hooks and the error notification |
| `ListRuns.SweepRan` | pkg/backy/backy.go:459-493 | cmdsRan is the prefix of Order up to and including the first failure; hasError iff some command failed; commandExecuted is the last command run |
| `ListRuns.SweepRecords` | pkg/backy/backy.go:486-492 | outStructArr holds exactly the commands before the first failure whose output was asked for, in order |
| `ListRuns.SweepEvents` | pkg/backy/backy.go:459-493 | the loop only appends runs, error hooks and error notifications |
| `ListRuns.SweepRuns` | pkg/backy/backy.go:467-468 | the loop appends one run per command it ran, in Order |
| `ListRuns.ListStopsAtFirstFailure` | pkg/backy/backy.go:459-493 | a list runs a prefix of Order, in order; every command but the last run succeeded; it failed iff the last one failed; it ran all of Order iff none failed |
| `ListRuns.ListEnd` | pkg/backy/backy.go:495-503 | after the loop: the success notification only when nothing failed, a notification is configured and Notify.OnFailure is set; the success hooks of the last command only when nothing failed; its final hooks always; an empty Order dereferences the nil commandExecuted |
| `ListRuns.SuccessNotification` | pkg/backy/backy.go:495-497 | a success notification is in the trace iff no command failed, a notification is configured and Notify.OnFailure is set |
| `ListRuns.ListStep` | pkg/backy/backy.go:460-492 | one turn of cmdListWorker's loop is Step, and it breaks iff the run failed |
| `ListRuns.CmdListWorker` | pkg/backy/backy.go:450-507 | the worker's trace for one list is ListTrace of its Order |
| `ListRuns.SweepList` | pkg/backy/backy.go:459-493 | cmdListWorker's loop over Order, up to and including the first failure, is Sweep from the initial variables |
| `ListRuns.FinishList` | pkg/backy/backy.go:495-503 | the end of the worker's turn is Finish |
| `ListRuns.FinishCrash` | pkg/backy/backy.go:495-503 | with no command run, the events so far are kept, followed by the success notification when it is due and the crash on the nil command |
| `ListRuns.FinishHooks` | pkg/backy/backy.go:495-503 | after a last command, the events so far are kept, followed by the success notification when it is due, the success hooks when nothing failed, and the final hooks of that command |
| `ListRuns.HostsSweepExtends` | pkg/backy/backy.go:517-569 | the host loop only appends to the trace |
| `ListRuns.FailureSticks` | pkg/backy/backy.go:515-565 | hasError is never reset between hosts, so once a command has failed no later host gets success hooks or a success notification |
| `ListRuns.HostNames` | pkg/backy/backy.go:521 | the Host field of every host, in order |
| `ListRuns.CmdListWorkerWithHosts` | pkg/backy/backy.go:508-572 | the trace is the whole list on each host in turn, with cmdsRan, outStructArr and hasError carried across hosts; every command's Host and RemoteHost end as HostsAfter says, and no other field of any command changes |
| `ListRuns.WorkerLoop` | pkg/backy/backy.go:517-569 | the host loop, stopped by the last host or a crash: its state is HostsSweep and every command's Host and RemoteHost are HostsAfter of the pair it started with |
| `ListRuns.WorkerStep` | pkg/backy/backy.go:519-568 | one host of the loop: the rest of HostsSweep and HostsAfter from this host equals the rest from the next host, and the commands' names, hooks and OutputInList stay as the worker first read them |
| `ListRuns.HostsAfterFrom` | pkg/backy/backy.go:517-569 | after the host loop every command either keeps the Host and RemoteHost it had or holds the name and the object of one of the hosts |
| `ListRuns.HostTurn` | pkg/backy/backy.go:519-567 | one host's turn is Finish after the Sweep on that host; every command's pair is Turned over the names the sweep ran; the commands' names, hooks and OutputInList stay as the worker first read them |
| `ListRuns.SweepOnHost` | pkg/backy/backy.go:519-557 | the loop over Order on one host is Sweep with that host, and each command's pair is Turned over the Ran names of Order |
| `ListRuns.SweepLoop` | pkg/backy/backy.go:519-557 | the loop by the number n of names it ran: its state is Sweep, n more names are in cmdsRan, and each command's pair is Turned over the first n names |
| `ListRuns.SweepOnHostStep` | pkg/backy/backy.go:520-556 | one name of Order: the rest of the Sweep moves on by one name, or the run fails and the sweep ends with this state; the command that ran takes the host, the others keep their pairs |
| `ListRuns.RanOnHost` | pkg/backy/backy.go:519-557 | the number of names the loop ran is Ran, the count of names up to and including the first failure |
| `ListRuns.TurnedHost` | pkg/backy/backy.go:519-524 | after a sweep a command that ran holds the host's name as its Host, one that did not keeps its pair, and no third pair is possible |
| `ListRuns.TakenHost` | pkg/backy/backy.go:521-524 | a command's pair after it runs on a host has that host's name as its Host string, and is either the pair it had or the host's name and object |
| `ListRuns.TakeHost` | pkg/backy/backy.go:521-524 | a command whose Host string differs from the host's gets Host and RemoteHost set to the host's; one with the same Host string keeps both |
| `ListRuns.StepOnHost` | pkg/backy/backy.go:520-556 | one command on one host: it takes the host as TakeHost does, runs, and the turn is Step with that host; failed is Fails |
| `ListRuns.RunOnHost` | pkg/backy/backy.go:525-556 | the run of a command that has taken the host is Step with that host, and failed is Fails |
| `ListRuns.FinishOnHost` | pkg/backy/backy.go:559-567 | the end of one host's turn is Finish |
| `ListRuns.CmdTraceRuns` | pkg/backy/backy.go:858-868 | one command of ExecuteCmds contributes exactly its own run |
| `ListRuns.EveryCommandRuns` | pkg/backy/backy.go:856-869 | ExecuteCmds runs every requested command, in order, whatever the earlier ones returned |
| `ListRuns.OneOutcomeHooks` | pkg/backy/backy.go:861-868 | after the run, the error hooks if it failed and the success hooks if it did not, then the final hooks |
| `ListRuns.ExecuteCmds` | pkg/backy/backy.go:856-872 | the loop's trace is ExecTrace of the requested commands |
| `ListRuns.LeadingSpaceNeverRuns` | pkg/backy/backy.go:788 | as written, a list whose Cron starts with a space is never enqueued by the trimmed schedule its job passes |
| `ListRuns.PaddedCronNeverRuns` | pkg/backy/backy.go:788 | as written, the Cron " 0 3 * * *" is scheduled as "0 3 * * *", which the filter then rejects |
| `ListRuns.Queued` | pkg/backy/backy.go:784-791 | with an empty cron string every list is enqueued; otherwise the lists are filtered by comparing the cron string with their untrimmed Cron |
| `ListRuns.QueuedSound` | pkg/backy/backy.go:788-790 | every enqueued list is one of the lists, and the cron string is empty or equals its untrimmed Cron |
| `ListRuns.QueuedComplete` | pkg/backy/backy.go:788-790 | every list whose untrimmed Cron equals the cron string, or any list when it is empty, is enqueued |
| `ListRuns.EnqueueList` | pkg/backy/backy.go:785-790 | a blank Name takes the key, and the list is appended iff the cron string is empty or equals its untrimmed Cron |
| `ListRuns.RunListConfig` | pkg/backy/backy.go:784-791 | the enqueued lists are Queued, with the untrimmed comparison; a set Name is kept, and every visited list has a Name |
| `ListRuns.QueuedSnoc` | pkg/backy/backy.go:784-791 | one more key appends that list iff the cron string is empty or equals its untrimmed Cron |
| `ListRuns.QueuedIntendedComplete` | pkg/backy/backy.go:788-790 | with the trimmed comparison, every list whose trimmed Cron is the cron string, or any list when it is empty, is enqueued |
| `ListRuns.HostQueue` | pkg/backy/backy.go:833-844 | only configured hosts that are not proxy hosts are sent |
| `ListRuns.HostQueueComplete` | pkg/backy/backy.go:833-837 | every configured host that is not a proxy host is sent |
| `ListRuns.ExecuteListOnHosts` | pkg/backy/backy.go:826-844 | every list is enqueued with a Name, and the hosts sent are HostQueue |
| `CmdRuns.ShellLineWords` | pkg/backy/backy.go:248-250 | the shell line is Cmd, a space, then every argument behind its own space |
| `CmdRuns.LocalInvocationAsWritten` | pkg/backy/backy.go:266-358 | a package command goes to the package executor; a remote script whose fetch fails returns that error, else runs its Shell with Args and the script as stdin; with a Shell, `Shell -c` of Cmd and ArgsStr; with Env or Environment and no Shell, `/bin/sh -c ArgsStr`, without Cmd; otherwise Cmd with Args; only a password change gets the password stdin |
| `CmdRuns.EnvDropsCmd` | pkg/backy/backy.go:353-354 | as written, the text the shell of such a command runs does not start with Cmd |
| `CmdRuns.EnvDropsCmdExample` | pkg/backy/backy.go:353-354 | `tar -czf b.tgz` with an env file starts `/bin/sh -c " -czf b.tgz"` |
| `CmdRuns.LocalInvocation` | pkg/backy/backy.go:266-366 | the corrected local choice: as the code, except that a command with an environment and no Shell runs `/bin/sh -c` with Cmd and ArgsStr; RunCmd does not use it |
| `CmdRuns.EnvRunsShellLine` | pkg/backy/backy.go:353-354 | corrected, a command with an environment and no Shell runs exactly as with Shell "/bin/sh" |
| `CmdRuns.AsWrittenElsewhere` | pkg/backy/backy.go:266-358 | the corrected choice agrees with the code on every command that does not take the Env branch |
| `CmdRuns.PlainCommandDirect` | pkg/backy/backy.go:355-356 | a command with no Shell and no environment runs Cmd itself with Args |
| `CmdRuns.RunPlan` | pkg/backy/backy.go:237-270 | refused iff both Host and Hosts are set; delegated iff only Hosts is set; run on the host iff Hosts is not set and the host is not local; otherwise the local invocation as written (LocalInvocationAsWritten) |
| `CmdRuns.RunCmd` | pkg/backy/backy.go:221-283 | the Host/Hosts guards leave the command alone; otherwise the command info is set first, the plan is RunPlan, so a local run is the as-written invocation, and a remote script without Shell gets "sh" |
| `CmdRuns.EnsureRemoteHost` | pkg/backy/backy.go:150-163 | a set RemoteHost is kept; otherwise the host's entry, else a fresh Host with only Host set; nothing else changes |
| `CmdRuns.HostNamesOf` | pkg/backy/backy.go:976 | the Host of every configured host, under the same keys |
| `CmdRuns.Target` | pkg/backy/backy.go:968-976 | a local host key is the Host; otherwise that entry's Host, or a nil dereference when the key is not configured |
| `CmdRuns.Row` | pkg/backy/backy.go:965-983 | one run per command of the list, on the one host |
| `CmdRuns.Col` | pkg/backy/backy.go:991-1010 | one run per host, of the one command |
| `CmdRuns.UpToCrash` | pkg/backy/backy.go:963-984 | the trace of a loop that stops at a panic is a prefix of the runs |
| `CmdRuns.UpToCrashAt` | pkg/backy/backy.go:963-984 | the trace ends with the first crash |
| `CmdRuns.UpToCrashNone` | pkg/backy/backy.go:963-984 | without a crash the trace is every run |
| `CmdRuns.HostMajorGrows` | pkg/backy/backy.go:963-965 | the runs for the first hosts are a prefix of the runs for all hosts |
| `CmdRuns.CommandMajorGrows` | pkg/backy/backy.go:990-991 | the runs for the first commands are a prefix of the runs for all commands |
| `CmdRuns.CommandMajorSnocHost` | pkg/backy/backy.go:990-991 | one more host adds that host's row to the command-major runs, as a multiset |
| `CmdRuns.SameRuns` | pkg/backy/backy.go:961-1012 | both loops make the same runs as a multiset, in a different order, so one reaches a crash iff the other does |
| `CmdRuns.NoCrashMultiset` | pkg/backy/backy.go:963-984 | a trace is crash-free iff its multiset holds no crash |
| `CmdRuns.CommandMajorEmptyHosts` | pkg/backy/backy.go:990-991 | with no hosts the command-major loop runs nothing |
| `CmdRuns.RunCmdFor` | pkg/backy/backy.go:964-982 | the run of the command for the host key; when it does not crash the command has that entry as RemoteHost and the target as Host |
| `CmdRuns.UpToCrashAppend` | pkg/backy/backy.go:963-984 | a crash-free first part is kept whole |
| `CmdRuns.UpToCrashExtend` | pkg/backy/backy.go:963-984 | runs after a crash are never reached |
| `CmdRuns.CrashInSuffix` | pkg/backy/backy.go:963-984 | a crash in the second part is a crash of the whole |
| `CmdRuns.UpToCrashCases` | pkg/backy/backy.go:963-984 | the trace is every run, or it ends at a crash |
| `CmdRuns.RunRow` | pkg/backy/backy.go:965-983 | the inner loop of ExecCmdsOnHosts yields the host's row up to its crash, and without a crash every command holds the host |
| `CmdRuns.HostMajorStep` | pkg/backy/backy.go:963-984 | after one more host the trace goes on, or it is the whole trace up to its crash |
| `CmdRuns.ExecCmdsOnHosts` | pkg/backy/backy.go:961-985 | host-major: every command on the first host, then the next, up to the first crash; afterwards every command holds the last host |
| `CmdRuns.RunCol` | pkg/backy/backy.go:991-1010 | the inner loop of ExecCmdsOnHostsInParallel yields the command's column up to its crash, and without a crash the command holds the last host |
| `CmdRuns.ColOfUnknown` | pkg/backy/backy.go:993-994 | an unknown command crashes on the first host |
| `CmdRuns.CommandMajorStep` | pkg/backy/backy.go:990-1011 | after one more command the trace goes on, or it is the whole trace up to its crash |
| `CmdRuns.ExecCmdsOnHostsInParallel` | pkg/backy/backy.go:987-1012 | command-major and one run at a time: the first command on every host, then the next, up to the first crash; afterwards every command holds the last host |
| `CmdRuns.LogCommandOutput` | pkg/backy/backy.go:1014-1031 | every line the scanner yields is appended to the earlier output, in order |
| `CmdRuns.LogKeepsLines` | pkg/backy/backy.go:1014-1031 | output written as newline-terminated lines comes back as exactly those lines |
| `CronMode.Jobs` | pkg/backy/cron.go:26-37 | at most one job per list |
| `CronMode.JobsSound` | pkg/backy/cron.go:26-37 | every job belongs to a list whose trimmed Cron is not blank, and carries that trimmed Cron |
| `CronMode.JobsComplete` | pkg/backy/cron.go:26-37 | every list whose trimmed Cron is not blank gets a job |
| `CronMode.PaddedJobSkipsItsList` | pkg/backy/cron.go:26-37 | as written, a list whose Cron starts with a space gets a job with a non-blank trimmed Cron, and RunListConfig, called with that string, does not enqueue the list |
| `CronMode.JobRunsItsList` | pkg/backy/cron.go:26-37 | with the corrected, trimmed comparison (QueuedIntended), when a list's job fires that list is enqueued |
| `CronMode.DefaultPortText` | pkg/backy/cron.go:18 | the default port prints as "8888" |
| `CronMode.EffectivePort` | pkg/backy/cron.go:47-59 | the configured port, or 8888 when it is 0 |
| `CronMode.BindAddressForm` | pkg/backy/cron.go:47-59 | the four branches are one rule: the address, a colon, the effective port |
| `CronMode.BindAddressSplits` | pkg/backy/cron.go:47-59 | the resulting address splits into the configured host and the effective port's digits |
| `CronMode.BindAddressPortValue` | pkg/backy/cron.go:47-59 | for a non-negative port, the port part is all digits and means the effective port |
| `CronMode.ScheduleJobs` | pkg/backy/cron.go:26-44 | the program exits iff the scheduler refuses some job; otherwise every job is made in order; on exit, exactly the jobs before the first refused one are made |
| `CronMode.SetBindAddress` | pkg/backy/cron.go:47-59 | the address becomes BindAddress of the old address and the port |
| `CronMode.Cron` | pkg/backy/cron.go:20-59 | the jobs as ScheduleJobs, then the UI address when nothing was refused; an exit leaves the address alone |

## Left out

- Process and SSH I/O: `exec.Cmd.Run`, SSH connections, sessions, sftp, `DetectOS` and `injectEnvIntoSSH` are not executed. A run is an event whose outcome comes from the `exec` oracle, and the detected OS comes from `detect`. The user-add authorized_keys writes after a local run (pkg/backy/backy.go:390-445) are not modelled.
- CmdRuns.RunCmd: stops where the process would start. It states the plan (refused, delegated, on the host, or the local invocation) and the command's new fields, not the output of the run.
- CmdRuns.LocalInvocation: the `/bin/sh -c` branch for package commands (pkg/backy/backy.go:346-351) is unreachable, because package commands return to the package executor at line 267. It is therefore not a separate case.
- Concurrency is not modelled: `ExecCommandOnHostsParallel`, `cmdListWorkerExecuteCommandsInParallel`, the goroutines and channels of `RunListConfig`/`ExecuteListOnHosts`, the `Cache` mutex and `closeHostConnections`. RunListConfig and ExecuteListOnHosts keep only their enqueue loops; a delegated run is the `Delegated` plan.
- CmdRuns.ExecCmdsOnHostsInParallel: modelled sequentially, which is what its loop does despite its name.
- ListRuns.CmdListWorker: takes as a precondition that every name in Order is a configured command, which validateCommandLists guarantees before any worker runs.
- ListRuns.HookEvents: a hook's own run is an event; its result is ignored, as in the source, and RunCmd never runs hooks, so the hook's own hooks do not appear.
- CmdRuns.ExecCmdsOnHosts: the trace is stated up to the first nil dereference. That is an unknown command, or a non-local host key missing from Hosts. What a panic does to the rest of the program is not modelled.
- The outcome oracles are deterministic: running the same command on the same host twice gives the same outcome.
- Notification.SetupNotify: the notify, mail and matrix transports and the message templates are not modelled. A notifier is the value its constructor is given, and `matrix.New` failing is the `matrixFails` oracle.
- CronMode.Cron: the gocron scheduler, cron-expression parsing and the HTTP UI server are not modelled. Whether the scheduler refuses a schedule is the `refused` set.
- Configuration loading is not modelled: koanf/viper/YAML, `InitConfig`, `ReadConfig`, the list-file loading and `unmarshalConfig`. Loading is the outcome of each candidate file. The godotenv parser, `shell.Expand`, regular expressions, sha256/`HashURL`, the password generator and the vault client are uninterpreted functions or parameters.
- Utils: the prefix of the file directive is not shown in the constants of pkg/backy/config.go:25-28, so `%{file:` is assumed, following the env and vault prefixes.
- LineInFile.LineInString: the compiled pattern is the `matches` predicate. An invalid pattern makes `regexp.MustCompile` panic (pkg/backy/lineinfile.go:66); that panic is not modelled, so the model behaves as if every pattern compiles.
- Metrics: the floating-point fields (execution times, success and failure rates) and the JSON save/load are not modelled.
- Apt: `SearchPackages` (pkg/pkgman/apt/apt.go:158) is not part of this model.
- The file and network fetchers are not modelled: pkg/remotefetcher/local.go, pkg/remotefetcher/http.go and their copies in pkg/configfetcher. Their fetches are outcomes in `World`.
- BackyTypes: pkg/backy/types.go is an older snapshot. The `Command` fields follow their use in config.go and backy.go: `Host` is a `*string` in config.go (an `Option`) and a string in backy.go (`HostString`, "" for nil).
- CmdProcessing.ResolveCmdHost: the self-assignments of `Host` and `HostName` (pkg/backy/config.go:544-547) change nothing and are not modelled separately.
- CmdProcessing.ProcessCmds: Go visits the commands in an unspecified order. The contract therefore says that a returned error is the error of some command, not of the first in a fixed order.
- Strs.IsSpace, Strs.TrimSpace: only the ASCII and Latin-1 white space characters count as space. Go's `unicode.IsSpace` also covers U+1680, U+2000-U+200A, U+2028, U+2029, U+202F, U+205F and U+3000, so a string padded with those is trimmed in Go and not here.
- Strs.LowerChar, Strs.ToLower: only `A`-`Z` are lower-cased. Go's `strings.ToLower` also maps non-ASCII letters such as À (U+00C0) and the Kelvin sign (U+212A).
- Strs.ScanLines: the 64 KiB token limit of `bufio.Scanner` is not modelled; a longer line is returned whole rather than stopping the scan with an error.
- Not part of the core: the CLI (cmd/), pkg/logging, pkg/backy/mongo.go, the printing in pkg/backy/list.go, pkg/config, the older viper-based pkg/notification, and the tests.

## Findings

The operations follow the code as written: RunCmd starts LocalInvocationAsWritten, SetCommandInfo builds `useradd` with the swapped flags, ProcessCmds crashes where detectOSType dereferences the nil Host, and RunListConfig compares with the untrimmed Cron. Each corrected member is stated beside them, with the intended property proved about it.

| source | as written | input that shows it | evidently intended | confidence | as-written member | corrected member |
|---|---|---|---|---|---|---|
| pkg/backy/utils.go:338-345 | passes `UserIsSystem` where AddUser (pkg/usermanager/linux/linux.go:18) takes `createHome`, and `UserCreateHome` where it takes `isSystem` | a user with UserIsSystem true and UserCreateHome false: useradd gets `-m` and no `--system` | `--system` iff UserIsSystem and `-m` iff UserCreateHome | not executed | `CommandInfo.AddUserFlagsSwapped` | `CommandInfo.AddUserCallFlags` |
| pkg/backy/config.go:651-660 | a command without a Host gets the local OS, then falls through to `opts.Hosts[*cmd.Host]`, which dereferences the nil Host | any user command with no `host` (detectOSType is called at line 585) | return after setting the local OS | not executed | `CmdProcessing.DetectOSTypeAsWritten` | `CmdProcessing.DetectOSType` |
| pkg/backy/backy.go:353-354 | with Env or Environment set and no Shell, runs `/bin/sh -c ArgsStr`, where ArgsStr holds only the arguments | Cmd `tar`, Args `-czf b.tgz`, Env `backup.env`: the shell runs ` -czf b.tgz` | run `Cmd ArgsStr`, as the Shell branch (line 337) does | not executed | `CmdRuns.EnvDropsCmd` | `CmdRuns.EnvRunsShellLine` |
| pkg/backy/backy.go:788 | compares the cron string with the list's untrimmed `Cron`, while Cron (pkg/backy/cron.go:27-35) schedules and passes the trimmed one | a list with Cron ` 0 3 * * *`: its job passes `0 3 * * *`, and the list is never enqueued | compare with the trimmed Cron | not executed | `CronMode.PaddedJobSkipsItsList` | `CronMode.JobRunsItsList` |
