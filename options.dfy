// The functional options of ConfigOpts and NewConfigOptions (pkg/backy/utils.go).
module ConfigOptions {
  import opened Wrappers
  import opened BackyTypes

  /**
   * A BackyOptionFunc. LogLvl is a method value: it sets the log level of
   * the ConfigOpts it was taken from, not of the one it is applied to.
   * NilOption is a nil function in the list.
   */
  datatype BackyOption =
    | LogLvl(receiver: ConfigOpts, level: string)
    | AddCommands(commands: seq<string>)
    | AddCommandLists(lists: seq<string>)
    | SetListsToSearch(searchLists: seq<string>)
    | SetCmdsToSearch(searchCmds: seq<string>)
    | SetLogFile(logFile: string)
    | SetHostsConfigFile(hostsConfigFile: string)
    | EnableCommandStdOut(setStdOut: bool)
    | EnableCron
    | NilOption

  /** What one option does to the options it is applied to. */
  function Apply(s: OptionState, o: BackyOption): OptionState
  {
    match o
    case LogLvl(_, _) => s
    case AddCommands(c) => s.(executeCmds := s.executeCmds + c)
    case AddCommandLists(l) => s.(executeLists := s.executeLists + l)
    case SetListsToSearch(l) => s.(listLists := s.listLists + l)
    case SetCmdsToSearch(c) => s.(listCommands := s.listCommands + c)
    case SetLogFile(f) => s.(logFilePath := f)
    case SetHostsConfigFile(f) => s.(hostsFilePath := f)
    case EnableCommandStdOut(b) => s.(cmdStdOut := b)
    case EnableCron => s.(cronEnabled := true)
    case NilOption => s
  }

  /** The options applied in order. */
  function ApplyAll(s: OptionState, opts: seq<BackyOption>): OptionState
  {
    if |opts| == 0 then s else Apply(ApplyAll(s, opts[..|opts| - 1]), opts[|opts| - 1])
  }

  /** Applying two runs of options is applying their concatenation. */
  lemma {:induction false} ApplyAllAppend(s: OptionState, a: seq<BackyOption>, b: seq<BackyOption>)
    ensures ApplyAll(s, a + b) == ApplyAll(ApplyAll(s, a), b)
  {
    if |b| > 0 {
      var b' := b[..|b| - 1];
      assert (a + b)[..|a + b| - 1] == a + b';
      ApplyAllAppend(s, a, b');
    } else {
      assert a + b == a;
    }
  }

  /** A nil option is skipped: removing it changes nothing. */
  lemma NilSkipped(s: OptionState, a: seq<BackyOption>, b: seq<BackyOption>)
    ensures ApplyAll(s, a + [NilOption] + b) == ApplyAll(s, a + b)
  {
    ApplyAllAppend(s, a + [NilOption], b);
    ApplyAllAppend(s, a, b);
    assert (a + [NilOption])[..|a|] == a;
  }

  /** The commands of every AddCommands option, in order. */
  function AddedCommands(opts: seq<BackyOption>): seq<string>
  {
    if |opts| == 0 then []
    else AddedCommands(opts[..|opts| - 1]) + (if opts[|opts| - 1].AddCommands? then opts[|opts| - 1].commands else [])
  }

  /** The lists of every AddCommandLists option, in order. */
  function AddedLists(opts: seq<BackyOption>): seq<string>
  {
    if |opts| == 0 then []
    else AddedLists(opts[..|opts| - 1]) + (if opts[|opts| - 1].AddCommandLists? then opts[|opts| - 1].lists else [])
  }

  /** AddCommands and AddCommandLists append: nothing is replaced or reordered, and LogLvl never sets the new options' level. */
  lemma {:induction false} OptionsAppend(s: OptionState, opts: seq<BackyOption>)
    ensures ApplyAll(s, opts).executeCmds == s.executeCmds + AddedCommands(opts)
    ensures ApplyAll(s, opts).executeLists == s.executeLists + AddedLists(opts)
    ensures ApplyAll(s, opts).backyLogLvl == s.backyLogLvl
    ensures ApplyAll(s, opts).configFilePath == s.configFilePath
  {
    if |opts| > 0 {
      OptionsAppend(s, opts[..|opts| - 1]);
    }
  }

  /** The level of the last LogLvl option taken from `r`, if any. */
  function LastLevel(opts: seq<BackyOption>, r: ConfigOpts): Option<string>
  {
    if |opts| == 0 then None
    else
      var o := opts[|opts| - 1];
      if o.LogLvl? && o.receiver == r then Some(o.level) else LastLevel(opts[..|opts| - 1], r)
  }

  /** The ConfigOpts the LogLvl options were taken from. */
  function Receivers(opts: seq<BackyOption>): set<ConfigOpts>
  {
    set k | 0 <= k < |opts| && opts[k].LogLvl? :: opts[k].receiver
  }

  /** One option, applied to `b`. */
  method ApplyOption(b: ConfigOpts, o: BackyOption)
    requires o.LogLvl? ==> o.receiver != b
    modifies b, if o.LogLvl? then {o.receiver} else {}
    ensures b.Options() == Apply(old(b.Options()), o)
    ensures o.LogLvl? ==> o.receiver.backyLogLvl == Some(o.level)
    ensures o.LogLvl? ==> o.receiver.Options() == old(o.receiver.Options()).(backyLogLvl := Some(o.level))
    ensures b.cmds == old(b.cmds) && b.lists == old(b.lists) && b.hosts == old(b.hosts)
  {
    match o
    case LogLvl(r, level) => r.backyLogLvl := Some(level);
    case AddCommands(c) => b.executeCmds := b.executeCmds + c;
    case AddCommandLists(l) => b.executeLists := b.executeLists + l;
    case SetListsToSearch(l) => b.listLists := b.listLists + l;
    case SetCmdsToSearch(c) => b.listCommands := b.listCommands + c;
    case SetLogFile(f) => b.logFilePath := f;
    case SetHostsConfigFile(f) => b.hostsFilePath := f;
    case EnableCommandStdOut(v) => b.cmdStdOut := v;
    case EnableCron => b.cronEnabled := true;
    case NilOption =>
  }

  /** NewConfigOptions: a fresh ConfigOpts with the path set and the non-nil options applied in order. */
  method NewConfigOptions(configFilePath: string, opts: seq<BackyOption>) returns (b: ConfigOpts)
    modifies Receivers(opts)
    ensures fresh(b)
    ensures b.Options() == ApplyAll(OptionState(configFilePath, [], [], [], [], "", "", false, false, None), opts)
    ensures b.cmds == map[] && b.lists == map[] && b.hosts == map[]
    ensures forall k :: 0 <= k < |opts| && opts[k].LogLvl? ==> opts[k].receiver.backyLogLvl == LastLevel(opts, opts[k].receiver)
  {
    b := new ConfigOpts();
    b.configFilePath := configFilePath;
    var i := 0;
    while i < |opts|
      invariant 0 <= i <= |opts|
      invariant fresh(b)
      invariant b.Options() == ApplyAll(OptionState(configFilePath, [], [], [], [], "", "", false, false, None), opts[..i])
      invariant b.cmds == map[] && b.lists == map[] && b.hosts == map[]
      invariant forall k :: 0 <= k < i && opts[k].LogLvl? ==> opts[k].receiver.backyLogLvl == LastLevel(opts[..i], opts[k].receiver)
    {
      assert opts[..i + 1][..i] == opts[..i];
      assert opts[i].LogLvl? ==> opts[i].receiver in Receivers(opts);
      ApplyOption(b, opts[i]);
      i := i + 1;
    }
    assert opts[..i] == opts;
  }
}
