// The configuration passes of pkg/backy/config.go that check and reshape the
// loaded maps: list validation and filtering, host defaults and proxy hosts,
// vault-key references, remote paths, configuration key paths, the default
// config file search and the vault token rule. Map iteration order is a
// parameter `keys` that lists each key once.
module Config {
  import opened Wrappers
  import opened Strs
  import opened BackyTypes
  import Ssh
  import Utils

  /** `keys` lists the keys of `m` once each: one iteration order of a Go map. */
  ghost predicate Enumerates<V>(keys: seq<string>, m: map<string, V>)
  {
    (forall i, j :: 0 <= i < j < |keys| ==> keys[i] != keys[j]) &&
    (forall k :: k in m <==> k in keys)
  }

  // ------------------------------------------------- validateCommandLists

  function NotDefinedError(cmd: string, list: string): string
  {
    "command " + cmd + " in list " + list + " is not defined in commands section in config file"
  }

  /** In cron mode a list with a blank schedule is dropped without being checked. */
  predicate Pruned(l: CmdList, cronEnabled: bool)
  {
    cronEnabled && TrimSpace(l.cron) == ""
  }

  /** One error per name of `order` that is not a defined command, in order. */
  function ListErrors(list: string, order: seq<string>, defined: set<string>): seq<string>
  {
    if |order| == 0 then []
    else
      ListErrors(list, order[..|order| - 1], defined)
      + (if order[|order| - 1] in defined then [] else [NotDefinedError(order[|order| - 1], list)])
  }

  /** Exactly one error for each position of `order` that names no command. */
  lemma {:induction false} ListErrorsCount(list: string, order: seq<string>, defined: set<string>)
    ensures |ListErrors(list, order, defined)| == |set j | 0 <= j < |order| && order[j] !in defined|
  {
    if |order| > 0 {
      var n := |order| - 1;
      ListErrorsCount(list, order[..n], defined);
      UndefinedPrefix(order, defined, n);
      UndefinedSnoc(order, defined, n);
    }
  }

  /** The positions below `n` whose name is not a command. */
  ghost function Undefined(order: seq<string>, defined: set<string>, n: int): set<int>
  {
    set j | 0 <= j < n && j < |order| && order[j] !in defined
  }

  lemma UndefinedPrefix(order: seq<string>, defined: set<string>, n: nat)
    requires n <= |order|
    ensures (set j | 0 <= j < |order[..n]| && order[..n][j] !in defined) == Undefined(order, defined, n)
  {
  }

  lemma UndefinedSnoc(order: seq<string>, defined: set<string>, n: nat)
    requires n + 1 == |order|
    ensures (set j | 0 <= j < |order| && order[j] !in defined) == Undefined(order, defined, n + 1)
    ensures |Undefined(order, defined, n + 1)| == |Undefined(order, defined, n)| + (if order[n] in defined then 0 else 1)
  {
    var before := Undefined(order, defined, n);
    if order[n] in defined {
      assert Undefined(order, defined, n + 1) == before;
    } else {
      assert n !in before;
      assert Undefined(order, defined, n + 1) == before + {n};
    }
  }

  /** A list has no error iff every name in its order is a command. */
  lemma {:induction false} ListErrorsNone(list: string, order: seq<string>, defined: set<string>)
    ensures |ListErrors(list, order, defined)| == 0 <==> forall j :: 0 <= j < |order| ==> order[j] in defined
  {
    if |order| > 0 {
      var n := |order| - 1;
      ListErrorsNone(list, order[..n], defined);
      assert forall j :: 0 <= j < n ==> order[..n][j] == order[j];
    }
  }

  /** The errors of validateCommandLists, visiting the lists in `keys` order. */
  function ValidationErrors(keys: seq<string>, lists: map<string, CmdList>, cronEnabled: bool, defined: set<string>): seq<string>
    requires forall i :: 0 <= i < |keys| ==> keys[i] in lists
  {
    if |keys| == 0 then []
    else
      var k := keys[|keys| - 1];
      ValidationErrors(keys[..|keys| - 1], lists, cronEnabled, defined)
      + (if Pruned(lists[k], cronEnabled) then [] else ListErrors(k, lists[k].order, defined))
  }

  /** No error (and so no fatal exit) iff every list that is kept names only defined commands. */
  lemma {:induction false} ValidationErrorsNone(keys: seq<string>, lists: map<string, CmdList>, cronEnabled: bool, defined: set<string>)
    requires forall i :: 0 <= i < |keys| ==> keys[i] in lists
    ensures |ValidationErrors(keys, lists, cronEnabled, defined)| == 0 <==>
            forall i :: 0 <= i < |keys| && !Pruned(lists[keys[i]], cronEnabled) ==>
              forall j :: 0 <= j < |lists[keys[i]].order| ==> lists[keys[i]].order[j] in defined
  {
    if |keys| > 0 {
      var n := |keys| - 1;
      ValidationErrorsNone(keys[..n], lists, cronEnabled, defined);
      ListErrorsNone(keys[n], lists[keys[n]].order, defined);
      assert forall i :: 0 <= i < n ==> keys[..n][i] == keys[i];
    }
  }

  lemma ValidationErrorsSnoc(keys: seq<string>, k: string, lists: map<string, CmdList>, cronEnabled: bool, defined: set<string>)
    requires forall i :: 0 <= i < |keys| ==> keys[i] in lists
    requires k in lists
    ensures ValidationErrors(keys + [k], lists, cronEnabled, defined) ==
            ValidationErrors(keys, lists, cronEnabled, defined) + (if Pruned(lists[k], cronEnabled) then [] else ListErrors(k, lists[k].order, defined))
  {
    assert (keys + [k])[..|keys|] == keys;
  }

  /** The lists left once the keys in `done` have been visited. */
  ghost function KeptAfter(lists: map<string, CmdList>, done: seq<string>, cronEnabled: bool): map<string, CmdList>
  {
    map k | k in lists && !(k in done && Pruned(lists[k], cronEnabled)) :: lists[k]
  }

  lemma KeptAfterSnoc(lists: map<string, CmdList>, done: seq<string>, k: string, cronEnabled: bool)
    requires k in lists
    ensures KeptAfter(lists, done + [k], cronEnabled) ==
            if Pruned(lists[k], cronEnabled) then KeptAfter(lists, done, cronEnabled) - {k} else KeptAfter(lists, done, cronEnabled)
  {
  }

  lemma KeptAfterNone(lists: map<string, CmdList>, cronEnabled: bool)
    ensures KeptAfter(lists, [], cronEnabled) == lists
  {
  }

  lemma KeptAfterAll(lists: map<string, CmdList>, keys: seq<string>, cronEnabled: bool)
    requires forall k :: k in lists ==> k in keys
    ensures KeptAfter(lists, keys, cronEnabled) == Kept(lists, cronEnabled)
  {
  }

  /** The lists validateCommandLists keeps. */
  function Kept(lists: map<string, CmdList>, cronEnabled: bool): (r: map<string, CmdList>)
    ensures forall k :: k in r <==> k in lists && !Pruned(lists[k], cronEnabled)
    ensures forall k :: k in r ==> r[k] == lists[k]
  {
    map k | k in lists && !Pruned(lists[k], cronEnabled) :: lists[k]
  }

  /** The errors of one list's order. */
  method CheckOrder(list: string, order: seq<string>, defined: map<string, Command>) returns (errs: seq<string>)
    ensures errs == ListErrors(list, order, defined.Keys)
  {
    errs := [];
    var j := 0;
    while j < |order|
      invariant 0 <= j <= |order|
      invariant errs == ListErrors(list, order[..j], defined.Keys)
    {
      assert order[..j + 1][..j] == order[..j];
      if order[j] !in defined {
        errs := errs + [NotDefinedError(order[j], list)];
      }
      j := j + 1;
    }
    assert order[..j] == order;
  }

  /** The loop of validateCommandLists over `keys`: the lists it keeps and the errors it collects. */
  method ValidateLists(keys: seq<string>, lists: map<string, CmdList>, cronEnabled: bool, cmds: map<string, Command>)
    returns (kept: map<string, CmdList>, errs: seq<string>)
    requires Enumerates(keys, lists)
    ensures kept == Kept(lists, cronEnabled)
    ensures errs == ValidationErrors(keys, lists, cronEnabled, cmds.Keys)
  {
    kept := lists;
    KeptAfterNone(lists, cronEnabled);
    errs := [];
    var i := 0;
    while i < |keys|
      invariant 0 <= i <= |keys|
      invariant kept == KeptAfter(lists, keys[..i], cronEnabled)
      invariant errs == ValidationErrors(keys[..i], lists, cronEnabled, cmds.Keys)
    {
      var name := keys[i];
      var pruned, e := ValidateList(name, lists[name], cronEnabled, cmds);
      ValidationErrorsStep(keys, i, lists, cronEnabled, cmds.Keys);
      KeptAfterStep(lists, keys, i, cronEnabled);
      if pruned {
        kept := kept - {name};
      } else {
        errs := errs + e;
      }
      i := i + 1;
    }
    assert keys[..i] == keys;
    KeptAfterAll(lists, keys, cronEnabled);
  }

  /** One turn of validateCommandLists's loop: a list dropped in cron mode, or the errors of its order. */
  method ValidateList(name: string, list: CmdList, cronEnabled: bool, cmds: map<string, Command>) returns (pruned: bool, errs: seq<string>)
    ensures pruned == Pruned(list, cronEnabled)
    ensures !pruned ==> errs == ListErrors(name, list.order, cmds.Keys)
  {
    if cronEnabled && TrimSpace(list.cron) == "" {
      return true, [];
    }
    errs := CheckOrder(name, list.order, cmds);
    pruned := false;
  }

  lemma ValidationErrorsStep(keys: seq<string>, i: nat, lists: map<string, CmdList>, cronEnabled: bool, defined: set<string>)
    requires i < |keys| && forall j :: 0 <= j < |keys| ==> keys[j] in lists
    ensures ValidationErrors(keys[..i + 1], lists, cronEnabled, defined) ==
            ValidationErrors(keys[..i], lists, cronEnabled, defined)
            + (if Pruned(lists[keys[i]], cronEnabled) then [] else ListErrors(keys[i], lists[keys[i]].order, defined))
  {
    assert keys[..i + 1] == keys[..i] + [keys[i]];
    ValidationErrorsSnoc(keys[..i], keys[i], lists, cronEnabled, defined);
  }

  lemma KeptAfterStep(lists: map<string, CmdList>, keys: seq<string>, i: nat, cronEnabled: bool)
    requires i < |keys| && keys[i] in lists
    ensures KeptAfter(lists, keys[..i + 1], cronEnabled) ==
            if Pruned(lists[keys[i]], cronEnabled) then KeptAfter(lists, keys[..i], cronEnabled) - {keys[i]} else KeptAfter(lists, keys[..i], cronEnabled)
  {
    assert keys[..i + 1] == keys[..i] + [keys[i]];
    KeptAfterSnoc(lists, keys[..i], keys[i], cronEnabled);
  }

  /**
   * validateCommandLists. The returned errors are those the function logs
   * with Fatal: a non-empty result ends the program.
   */
  method ValidateCommandLists(opts: ConfigOpts, keys: seq<string>) returns (errs: seq<string>)
    requires Enumerates(keys, opts.lists)
    modifies opts
    ensures opts.lists == Kept(old(opts.lists), opts.cronEnabled)
    ensures errs == ValidationErrors(keys, old(opts.lists), opts.cronEnabled, opts.cmds.Keys)
    ensures opts.cmds == old(opts.cmds) && opts.hosts == old(opts.hosts) && opts.Options() == old(opts.Options())
  {
    var kept;
    kept, errs := ValidateLists(keys, opts.lists, opts.cronEnabled, opts.cmds);
    opts.lists := kept;
  }

  // ---------------------------------------------------- filterExecuteLists

  /** The lists filterExecuteLists keeps: all of them when none was requested. */
  function Filtered(lists: map<string, CmdList>, executeLists: seq<string>): map<string, CmdList>
  {
    if |executeLists| == 0 then lists else map k | k in lists && k in executeLists :: lists[k]
  }

  /** Exactly the requested lists remain, unchanged, or all of them when none was requested. */
  lemma FilteredKeys(lists: map<string, CmdList>, executeLists: seq<string>)
    ensures forall k :: k in Filtered(lists, executeLists) <==> k in lists && (|executeLists| == 0 || k in executeLists)
    ensures forall k :: k in Filtered(lists, executeLists) ==> Filtered(lists, executeLists)[k] == lists[k]
  {
  }

  /** Filtering a second time changes nothing. */
  lemma FilterIdempotent(lists: map<string, CmdList>, executeLists: seq<string>)
    ensures Filtered(Filtered(lists, executeLists), executeLists) == Filtered(lists, executeLists)
  {
  }

  /** filterExecuteLists */
  method FilterExecuteLists(opts: ConfigOpts, keys: seq<string>)
    requires Enumerates(keys, opts.lists)
    modifies opts
    ensures opts.lists == Filtered(old(opts.lists), opts.executeLists)
    ensures opts.cmds == old(opts.cmds) && opts.hosts == old(opts.hosts) && opts.Options() == old(opts.Options())
  {
    if |opts.executeLists| > 0 {
      ghost var lists0 := opts.lists;
      var i := 0;
      FilteredAfterNone(lists0, opts.executeLists);
      while i < |keys|
        invariant 0 <= i <= |keys|
        invariant opts.lists == FilteredAfter(lists0, keys[..i], opts.executeLists)
        invariant opts.cmds == old(opts.cmds) && opts.hosts == old(opts.hosts) && opts.Options() == old(opts.Options())
      {
        FilteredAfterSnoc(lists0, keys, i, opts.executeLists);
        if !Utils.ContainsString(opts.executeLists, keys[i]) {
          opts.lists := opts.lists - {keys[i]};
        }
        i := i + 1;
      }
      FilteredAfterAll(lists0, keys, opts.executeLists);
    }
  }

  /** The lists left once the keys in `done` have been checked against the requested lists. */
  ghost function FilteredAfter(lists: map<string, CmdList>, done: seq<string>, executeLists: seq<string>): map<string, CmdList>
  {
    map k | k in lists && !(k in done && k !in executeLists) :: lists[k]
  }

  lemma FilteredAfterNone(lists: map<string, CmdList>, executeLists: seq<string>)
    ensures FilteredAfter(lists, [], executeLists) == lists
  {
  }

  lemma FilteredAfterSnoc(lists: map<string, CmdList>, keys: seq<string>, i: nat, executeLists: seq<string>)
    requires i < |keys|
    ensures FilteredAfter(lists, keys[..i + 1], executeLists) ==
            if keys[i] !in executeLists then FilteredAfter(lists, keys[..i], executeLists) - {keys[i]} else FilteredAfter(lists, keys[..i], executeLists)
  {
    assert keys[..i + 1] == keys[..i] + [keys[i]];
  }

  lemma FilteredAfterAll(lists: map<string, CmdList>, keys: seq<string>, executeLists: seq<string>)
    requires Enumerates(keys, lists) && |executeLists| > 0
    ensures FilteredAfter(lists, keys, executeLists) == Filtered(lists, executeLists)
  {
  }

  // ------------------------------------------ resolveHostConfigs, proxies

  /** The proxies `ProxyJump` lists, each resolved in the host map. */
  function Proxies(names: seq<string>, hosts: map<string, Ssh.Host>): seq<Ssh.Host>
    requires forall j :: 0 <= j < |names| ==> names[j] in hosts
  {
    seq(|names|, j requires 0 <= j < |names| => hosts[names[j]])
  }

  /**
   * resolveProxyHosts: every name of ProxyJump that is not a configured host
   * becomes a new minimal host in the map, and the proxies are appended to
   * ProxyHost in the listed order.
   */
  method ResolveProxyHosts(host: Ssh.Host, opts: ConfigOpts)
    modifies host, opts
    ensures var names := Split(old(host.proxyJump), ',');
      && (forall j :: 0 <= j < |names| ==> names[j] in opts.hosts)
      && (forall k :: k in opts.hosts <==> k in old(opts.hosts) || k in names)
      && (forall k :: k in old(opts.hosts) ==> opts.hosts[k] == old(opts.hosts)[k])
      && (forall k :: k in opts.hosts && k !in old(opts.hosts) ==>
            fresh(opts.hosts[k]) && opts.hosts[k].State() == Ssh.HostState(k, "", 0, "", "", "", "", "", [], false, ""))
      && host.proxyHost == old(host.proxyHost) + Proxies(names, opts.hosts)
    ensures host.State() == old(host.State()).(proxyHost := host.proxyHost)
    ensures opts.cmds == old(opts.cmds) && opts.lists == old(opts.lists) && opts.Options() == old(opts.Options())
  {
    var names := Split(host.proxyJump, ',');
    var hosts, proxies := CollectProxies(names, opts.hosts);
    host.proxyHost := host.proxyHost + proxies;
    opts.hosts := hosts;
  }

  /** The loop of resolveProxyHosts: the host map with every name added, and the proxies in order. */
  method CollectProxies(names: seq<string>, hosts0: map<string, Ssh.Host>) returns (hosts: map<string, Ssh.Host>, proxies: seq<Ssh.Host>)
    ensures forall j :: 0 <= j < |names| ==> names[j] in hosts
    ensures forall k :: k in hosts <==> k in hosts0 || k in names
    ensures forall k :: k in hosts0 ==> hosts[k] == hosts0[k]
    ensures forall k :: k in hosts && k !in hosts0 ==>
              fresh(hosts[k]) && hosts[k].State() == Ssh.HostState(k, "", 0, "", "", "", "", "", [], false, "")
    ensures proxies == Proxies(names, hosts)
  {
    hosts := hosts0;
    proxies := [];
    var i := 0;
    while i < |names|
      invariant 0 <= i <= |names|
      invariant forall j :: 0 <= j < i ==> names[j] in hosts
      invariant forall k :: k in hosts <==> k in hosts0 || k in names[..i]
      invariant forall k :: k in hosts0 ==> hosts[k] == hosts0[k]
      invariant forall k :: k in hosts && k !in hosts0 ==>
                  fresh(hosts[k]) && hosts[k].State() == Ssh.HostState(k, "", 0, "", "", "", "", "", [], false, "")
      invariant proxies == Proxies(names[..i], hosts)
    {
      var h := names[i];
      assert names[..i + 1] == names[..i] + [h];
      ghost var before := hosts;
      if h !in hosts {
        var proxy := new Ssh.Host(h);
        hosts := hosts[h := proxy];
      }
      ProxiesStep(names, i, before, hosts);
      proxies := proxies + [hosts[h]];
      i := i + 1;
    }
    assert names[..i] == names;
  }

  /** The proxies of one more name, once the map holds it: the earlier ones are unchanged. */
  lemma ProxiesStep(names: seq<string>, i: nat, before: map<string, Ssh.Host>, after: map<string, Ssh.Host>)
    requires i < |names| && forall j :: 0 <= j < i ==> names[j] in before
    requires forall k :: k in before ==> k in after && after[k] == before[k]
    requires names[i] in after
    ensures forall j :: 0 <= j <= i ==> names[j] in after
    ensures Proxies(names[..i + 1], after) == Proxies(names[..i], before) + [after[names[i]]]
  {
    var p1, p0 := Proxies(names[..i + 1], after), Proxies(names[..i], before);
    assert forall j :: 0 <= j < i ==> p1[j] == p0[j];
  }

  /** No two keys of the host map share a Host. */
  predicate DistinctHosts(hosts: map<string, Ssh.Host>)
  {
    forall a, b :: a in hosts && b in hosts && a != b ==> hosts[a] != hosts[b]
  }

  /**
   * resolveHostConfigs: a host with an empty Host takes its key, and a host
   * with a ProxyJump gets its proxies; no other field of a host changes.
   * Hosts the pass inserts are not visited; they have their name as Host and
   * no ProxyJump, so visiting them would change nothing.
   */
  method ResolveHostConfigs(opts: ConfigOpts, keys: seq<string>)
    requires Enumerates(keys, opts.hosts) && DistinctHosts(opts.hosts)
    modifies opts, opts.hosts.Values
    ensures forall k :: k in old(opts.hosts) ==> k in opts.hosts && opts.hosts[k] == old(opts.hosts)[k]
    ensures forall k :: k in old(opts.hosts) ==>
              opts.hosts[k].State() == old(opts.hosts[k].State()).(host := opts.hosts[k].host, proxyHost := opts.hosts[k].proxyHost)
    ensures forall k :: k in old(opts.hosts) ==>
              opts.hosts[k].host == (if old(opts.hosts[k].host) == "" then k else old(opts.hosts[k].host))
    ensures forall k :: k in old(opts.hosts) && old(opts.hosts[k].proxyJump) != "" ==>
              forall j :: 0 <= j < |Split(old(opts.hosts[k].proxyJump), ',')| ==> Split(old(opts.hosts[k].proxyJump), ',')[j] in opts.hosts
    ensures forall k :: k in old(opts.hosts) && old(opts.hosts[k].proxyJump) != "" ==>
              opts.hosts[k].proxyHost == old(opts.hosts[k].proxyHost) + Proxies(Split(old(opts.hosts[k].proxyJump), ','), opts.hosts)
    ensures forall k :: k in old(opts.hosts) && old(opts.hosts[k].proxyJump) == "" ==>
              opts.hosts[k].proxyHost == old(opts.hosts[k].proxyHost)
    ensures forall k :: k in opts.hosts && k !in old(opts.hosts) ==>
              fresh(opts.hosts[k]) && opts.hosts[k].State() == Ssh.HostState(k, "", 0, "", "", "", "", "", [], false, "")
    ensures opts.cmds == old(opts.cmds) && opts.lists == old(opts.lists) && opts.Options() == old(opts.Options())
  {
    ghost var start := opts.hosts;
    ghost var state0 := map k | k in start :: start[k].State();
    VisitHosts(opts, keys, start, state0);
  }

  /** The loop of resolveHostConfigs, stated against the hosts' states before it. */
  method VisitHosts(opts: ConfigOpts, keys: seq<string>, ghost start: map<string, Ssh.Host>, ghost state0: map<string, Ssh.HostState>)
    requires Enumerates(keys, start) && DistinctHosts(start) && start == opts.hosts
    requires start.Keys == state0.Keys
    requires forall k :: k in start ==> Visited(start[k], k, false, state0[k], opts.hosts)
    modifies opts, start.Values
    ensures forall k :: k in start ==> k in opts.hosts && opts.hosts[k] == start[k]
    ensures forall k :: k in start ==> Visited(start[k], k, true, state0[k], opts.hosts)
    ensures forall k :: k in opts.hosts && k !in start ==> NewHost(opts.hosts[k], k) && fresh(opts.hosts[k])
    ensures opts.cmds == old(opts.cmds) && opts.lists == old(opts.lists) && opts.Options() == old(opts.Options())
  {
    var i := 0;
    while i < |keys|
      invariant 0 <= i <= |keys|
      invariant forall k :: k in start ==> k in opts.hosts && opts.hosts[k] == start[k]
      invariant forall k :: k in start ==> Visited(start[k], k, k in keys[..i], state0[k], opts.hosts)
      invariant forall k :: k in opts.hosts && k !in start ==> NewHost(opts.hosts[k], k) && fresh(opts.hosts[k])
      invariant opts.cmds == old(opts.cmds) && opts.lists == old(opts.lists) && opts.Options() == old(opts.Options())
    {
      assert keys[i] !in keys[..i];
      VisitHost(opts, keys, i, start, state0);
      i := i + 1;
    }
    assert keys[..i] == keys;
  }

  /** One turn of resolveHostConfigs's loop, on the host of keys[i]. */
  method VisitHost(opts: ConfigOpts, keys: seq<string>, i: nat, ghost start: map<string, Ssh.Host>, ghost state0: map<string, Ssh.HostState>)
    requires i < |keys| && keys[i] in start && keys[i] !in keys[..i]
    requires forall k :: k in start && k != keys[i] ==> start[k] != start[keys[i]]
    requires start.Keys == state0.Keys
    requires forall k :: k in start ==> k in opts.hosts && opts.hosts[k] == start[k]
    requires forall k :: k in start ==> Visited(start[k], k, k in keys[..i], state0[k], opts.hosts)
    requires forall k :: k in opts.hosts && k !in start ==> opts.hosts[k] != start[keys[i]]
    modifies opts, start[keys[i]]
    ensures forall k :: k in start ==> k in opts.hosts && opts.hosts[k] == start[k]
    ensures forall k :: k in start ==> Visited(start[k], k, k in keys[..i + 1], state0[k], opts.hosts)
    ensures forall k :: k in old(opts.hosts) ==> k in opts.hosts && opts.hosts[k] == old(opts.hosts)[k]
    ensures forall k :: k in opts.hosts && k !in old(opts.hosts) ==> NewHost(opts.hosts[k], k) && fresh(opts.hosts[k])
    ensures opts.cmds == old(opts.cmds) && opts.lists == old(opts.lists) && opts.Options() == old(opts.Options())
  {
    var key := keys[i];
    assert keys[..i + 1] == keys[..i] + [key];
    var host := opts.hosts[key];
    assert host.State() == state0[key];
    ResolveHost(host, key, opts);
    ghost var hosts0 := old(opts.hosts);
    forall k | k in start && k != key
      ensures Visited(start[k], k, k in keys[..i + 1], state0[k], opts.hosts)
    {
      assert start[k] != host;
      assert (k in keys[..i + 1]) == (k in keys[..i]);
      assert Visited(start[k], k, k in keys[..i], state0[k], hosts0);
      VisitedKeep(start[k], k, k in keys[..i], state0[k], hosts0, opts.hosts);
    }
    assert key in keys[..i + 1];
  }

  /** The body of resolveHostConfigs's loop on one host: it ends visited, and the host map only grows with fresh minimal hosts. */
  method ResolveHost(host: Ssh.Host, key: string, opts: ConfigOpts)
    modifies host, opts
    ensures Visited(host, key, true, old(host.State()), opts.hosts)
    ensures forall k :: k in old(opts.hosts) ==> k in opts.hosts && opts.hosts[k] == old(opts.hosts)[k]
    ensures forall k :: k in opts.hosts && k !in old(opts.hosts) ==> NewHost(opts.hosts[k], k) && fresh(opts.hosts[k])
    ensures opts.cmds == old(opts.cmds) && opts.lists == old(opts.lists) && opts.Options() == old(opts.Options())
  {
    if host.host == "" {
      host.host := key;
    }
    if host.proxyJump != "" {
      ResolveProxiesOf(host, opts);
    }
  }

  /** What resolveHostConfigs relies on of resolveProxyHosts: the map only grows with fresh minimal hosts, holds every ProxyJump name, and the proxies are appended. */
  method ResolveProxiesOf(host: Ssh.Host, opts: ConfigOpts)
    modifies host, opts
    ensures forall k :: k in old(opts.hosts) ==> k in opts.hosts && opts.hosts[k] == old(opts.hosts)[k]
    ensures forall k :: k in opts.hosts && k !in old(opts.hosts) ==> NewHost(opts.hosts[k], k) && fresh(opts.hosts[k])
    ensures AllIn(Split(old(host.proxyJump), ','), opts.hosts)
    ensures host.proxyHost == old(host.proxyHost) + Proxies(Split(old(host.proxyJump), ','), opts.hosts)
    ensures host.State() == old(host.State()).(proxyHost := host.proxyHost)
    ensures opts.cmds == old(opts.cmds) && opts.lists == old(opts.lists) && opts.Options() == old(opts.Options())
  {
    ResolveProxyHosts(host, opts);
  }

  /** A host resolveProxyHosts inserts for a ProxyJump name: the name as Host and every other field empty. */
  predicate NewHost(h: Ssh.Host, k: string)
    reads h
  {
    h.State() == Ssh.HostState(k, "", 0, "", "", "", "", "", [], false, "")
  }

  /** Every name is a key of the host map. */
  predicate AllIn(names: seq<string>, hosts: map<string, Ssh.Host>)
  {
    forall j :: 0 <= j < |names| ==> names[j] in hosts
  }

  /** A visited host stays visited when the host map only grows: its proxies resolve to the same hosts. */
  lemma VisitedKeep(h: Ssh.Host, k: string, done: bool, s0: Ssh.HostState,
                    hosts: map<string, Ssh.Host>, hosts': map<string, Ssh.Host>)
    requires Visited(h, k, done, s0, hosts)
    requires forall n :: n in hosts ==> n in hosts' && hosts'[n] == hosts[n]
    ensures Visited(h, k, done, s0, hosts')
  {
    if done && s0.proxyJump != "" {
      var names := Split(s0.proxyJump, ',');
      assert Proxies(names, hosts') == Proxies(names, hosts);
    }
  }

  /**
   * The state of host `h` under key `k` before (`!done`) or after
   * resolveHostConfigs visits it, from its state `s0` before the pass: only
   * Host and ProxyHost may differ from `s0`.
   */
  ghost predicate Visited(h: Ssh.Host, k: string, done: bool, s0: Ssh.HostState, hosts: map<string, Ssh.Host>)
    reads h
  {
    && h.hostName == s0.hostName && h.port == s0.port && h.user == s0.user && h.clientUser == s0.clientUser
    && h.privateKeyPath == s0.privateKeyPath && h.knownHostsFile == s0.knownHostsFile
    && h.proxyJump == s0.proxyJump && h.isProxyHost == s0.isProxyHost && h.os == s0.os
    && h.host == (if done && s0.host == "" then k else s0.host)
    && (done && s0.proxyJump != "" ==> AllIn(Split(s0.proxyJump, ','), hosts) && h.proxyHost == s0.proxyHost + Proxies(Split(s0.proxyJump, ','), hosts))
    && (!done || s0.proxyJump == "" ==> h.proxyHost == s0.proxyHost)
  }

  // ----------------------------------------------------------- vault keys

  /** isVaultKey: the trimmed string, without its "vault:" prefix, and whether it had one. */
  function IsVaultKey(str: string): (r: (string, bool))
    ensures r.1 <==> HasPrefix(TrimSpace(str), "vault:")
    ensures r.1 ==> "vault:" + r.0 == TrimSpace(str)
    ensures !r.1 ==> r.0 == TrimSpace(str)
  {
    var t := TrimSpace(str);
    (TrimPrefix(t, "vault:"), HasPrefix(t, "vault:"))
  }

  /** parseVaultKey: no key for other strings, else the first key with the name, or an error. */
  function ParseVaultKey(str: string, keys: seq<Utils.VaultKey>): (r: Result<Option<Utils.VaultKey>>)
    ensures !HasPrefix(TrimSpace(str), "vault:") ==> r == Ok(None)
    ensures HasPrefix(TrimSpace(str), "vault:") ==>
              var name := TrimSpace(str)[|"vault:"|..];
              (r.Err? <==> forall i :: 0 <= i < |keys| ==> keys[i].name != name) &&
              (r.Err? ==> r.msg == "key " + name + " not found in vault keys") &&
              (r.Ok? ==> (r.value.Some? && r.value.value.name == name &&
                exists i :: 0 <= i < |keys| && keys[i] == r.value.value && forall j :: 0 <= j < i ==> keys[j].name != name))
  {
    var (name, isKey) := IsVaultKey(str);
    if !isKey then Ok(None)
    else
      match Utils.VaultKeyData(name, keys)
      case Err(e) => Err(e)
      case Ok(k) => Ok(Some(k))
  }

  /** Spaces around a vault reference do not matter. */
  lemma VaultKeyTrimmed(str: string, keys: seq<Utils.VaultKey>)
    ensures ParseVaultKey(" " + str + " ", keys) == ParseVaultKey(str, keys)
  {
    TrimPadded(str);
  }

  /** Trimming a string padded by one space on each side trims the string. */
  lemma TrimPadded(s: string)
    ensures TrimSpace(" " + s + " ") == TrimSpace(s)
  {
    var p := " " + s + " ";
    assert TrimLeftSpace(p) == TrimLeftSpace(s + " ") by {
      assert p[1..] == s + " ";
    }
    TrimLeftPadded(s);
    TrimRightPadded(TrimLeftSpace(s));
  }

  lemma {:induction false} TrimLeftPadded(s: string)
    ensures TrimLeftSpace(s + " ") == (if TrimLeftSpace(s) == "" then "" else TrimLeftSpace(s) + " ")
  {
    if |s| > 0 {
      assert (s + " ")[1..] == s[1..] + " ";
      if IsSpace(s[0]) {
        TrimLeftPadded(s[1..]);
      }
    } else {
      assert s + " " == " ";
      assert TrimLeftSpace(" ") == TrimLeftSpace(" "[1..]);
    }
  }

  lemma TrimRightPadded(s: string)
    ensures TrimRightSpace(if s == "" then "" else s + " ") == TrimRightSpace(s)
  {
    if s != "" {
      assert (s + " ")[..|s|] == s;
    }
  }

  // ---------------------------------------------------- paths and keys

  /** isRemoteURL */
  predicate IsRemoteURL(filePath: string)
  {
    HasPrefix(filePath, "http://") || HasPrefix(filePath, "https://") || HasPrefix(filePath, "s3://")
  }

  /** Only the three schemes are remote: a bare "http" prefix or a local path is not. */
  lemma RemoteURLExamples()
    ensures IsRemoteURL("s3://bucket/backy.yml") && IsRemoteURL("https://host/backy.yml")
    ensures !IsRemoteURL("httpdocs/backy.yml") && !IsRemoteURL("/etc/backy.yml")
  {
    assert "s3://bucket/backy.yml"[..5] == "s3://";
    assert "https://host/backy.yml"[..8] == "https://";
    NotRemote("httpdocs/backy.yml");
    NotRemote("/etc/backy.yml");
  }

  /** A path whose first character is not 's' and whose fifth is neither ':' nor 's' has none of the schemes. */
  lemma NotRemote(s: string)
    requires |s| > 4 && s[0] != 's' && s[4] != ':' && s[4] != 's'
    ensures !IsRemoteURL(s)
  {
    assert "http://"[4] == ':' && "https://"[4] == 's' && "s3://"[0] == 's';
  }

  /** getNestedConfig */
  function NestedConfig(nestedConfig: string, key: string): (r: string)
    ensures HasPrefix(r, nestedConfig) && HasSuffix(r, key) && |r| == |nestedConfig| + 1 + |key|
    ensures r[|nestedConfig|] == '.'
  {
    var r := nestedConfig + "." + key;
    assert r[..|nestedConfig|] == nestedConfig;
    assert r[|r| - |key|..] == key;
    r
  }

  /** A key path of two dot-free parts splits back into them. */
  lemma NestedConfigSplits(nestedConfig: string, key: string)
    requires '.' !in nestedConfig && '.' !in key
    ensures Split(NestedConfig(nestedConfig, key), '.') == [nestedConfig, key]
  {
    SplitOfJoin([nestedConfig, key], '.');
    assert Join([nestedConfig, key], ".") == nestedConfig + "." + Join([key], ".");
  }

  /** getCmdFromConfig */
  function CmdFromConfig(key: string): (r: string)
    ensures TrimPrefix(r, "commands.") == key && HasPrefix(r, "commands.")
  {
    var r := "commands." + key;
    assert r[..|"commands."|] == "commands.";
    r
  }

  /** getCmdListFromConfig */
  function CmdListFromConfig(list: string): (r: string)
    ensures TrimPrefix(r, "cmd-lists.") == list && HasPrefix(r, "cmd-lists.")
  {
    var r := "cmd-lists." + list;
    assert r[..|"cmd-lists."|] == "cmd-lists.";
    r
  }

  /** getLoggingKeyFromConfig: the logging section itself for "", else a key inside it. */
  function LoggingKeyFromConfig(key: string): (r: string)
    ensures key == "" ==> r == "logging"
    ensures key != "" ==> HasPrefix(r, "logging.") && TrimPrefix(r, "logging.") == key
  {
    if key == "" then "logging"
    else
      var r := "logging." + key;
      assert r[..|"logging."|] == "logging.";
      r
  }

  // ----------------------------------------------- loadDefaultConfigFiles

  /** Whether candidate `c` both fetches and loads. */
  predicate Loads(c: string, fetch: string -> Result<string>, load: string -> bool)
  {
    fetch(c).Ok? && load(fetch(c).value)
  }

  /**
   * loadDefaultConfigFiles: `fetch` is the fetcher and `load` whether koanf
   * loads the data. Returns the index of the candidate that loaded, and
   * whether the function exits.
   */
  method LoadDefaultConfigFiles(configFiles: seq<string>, fetch: string -> Result<string>, load: string -> bool)
    returns (loaded: Option<nat>, exits: bool)
    ensures exits <==> forall i :: 0 <= i < |configFiles| ==> !Loads(configFiles[i], fetch, load)
    ensures loaded.Some? <==> !exits
    ensures loaded.Some? ==> (loaded.value < |configFiles| && Loads(configFiles[loaded.value], fetch, load) &&
              forall i :: 0 <= i < loaded.value ==> !Loads(configFiles[i], fetch, load))
  {
    var failures := 0;
    loaded := None;
    var i := 0;
    while i < |configFiles|
      invariant 0 <= i <= |configFiles| && failures == i
      invariant forall j :: 0 <= j < i ==> !Loads(configFiles[j], fetch, load)
    {
      var data := fetch(configFiles[i]);
      if data.Err? {
        failures := failures + 1;
        i := i + 1;
        continue;
      }
      if !load(data.value) {
        failures := failures + 1;
        i := i + 1;
        continue;
      }
      loaded := Some(i);
      break;
    }
    exits := failures == |configFiles|;
  }

  // ------------------------------------------------------------ setupVault

  const NoTokenError := "no token found, but one was required. \n\nSet the config key vault.token or the environment variable VAULT_TOKEN"

  /** The address setupVault uses: the configured one, else VAULT_ADDR. */
  function VaultAddress(configAddress: string, envAddress: string): (r: string)
    ensures TrimSpace(configAddress) != "" ==> r == configAddress
    ensures TrimSpace(configAddress) == "" ==> r == envAddress
  {
    if TrimSpace(configAddress) == "" then envAddress else configAddress
  }

  /**
   * The token rule of setupVault: nothing when vault is disabled; the
   * client error if creating the client fails; the configured token, else
   * VAULT_TOKEN; a blank token is an error.
   */
  function VaultToken(enabled: bool, clientErr: Option<string>, configToken: string, envToken: string): (r: Result<Option<string>>)
    ensures !enabled ==> r == Ok(None)
    ensures enabled && clientErr.Some? ==> r == Err(clientErr.value)
    ensures enabled && clientErr.None? && TrimSpace(configToken) != "" ==> r == Ok(Some(configToken))
    ensures enabled && clientErr.None? && TrimSpace(configToken) == "" ==>
              r == if TrimSpace(envToken) == "" then Err(NoTokenError) else Ok(Some(envToken))
    ensures r.Ok? && r.value.Some? ==> TrimSpace(r.value.value) != ""
  {
    if !enabled then Ok(None)
    else if clientErr.Some? then Err(clientErr.value)
    else
      var token := if TrimSpace(configToken) == "" then envToken else configToken;
      if TrimSpace(token) == "" then Err(NoTokenError) else Ok(Some(token))
  }
}
