// Cron mode (pkg/backy/cron.go): which lists get a scheduled job, what the
// job runs, and the address the scheduler UI listens on. The scheduler,
// cron parsing and the HTTP server are not modelled; whether the scheduler
// refuses a job is an oracle.
module CronMode {
  import opened Wrappers
  import opened Strs
  import opened BackyTypes
  import Config
  import ListRuns

  const DefaultPort := 8888

  /** A scheduled job: the list's Name, and the trimmed schedule its task passes to RunListConfig. */
  datatype Job = Job(name: string, cron: string)

  /** The jobs Cron creates, in `keys` order: one per list whose trimmed Cron is not blank. */
  function Jobs(keys: seq<string>, lists: map<string, CmdList>): (r: seq<Job>)
    requires forall j :: 0 <= j < |keys| ==> keys[j] in lists
    reads lists.Values
    ensures |r| <= |keys|
  {
    if |keys| == 0 then []
    else
      var l := lists[keys[|keys| - 1]];
      var cron := TrimSpace(l.cron);
      Jobs(keys[..|keys| - 1], lists) + (if cron != "" then [Job(l.name, cron)] else [])
  }

  /** Every job belongs to a list with a non-blank schedule, and carries that schedule trimmed. */
  lemma {:induction false} JobsSound(keys: seq<string>, lists: map<string, CmdList>)
    requires forall j :: 0 <= j < |keys| ==> keys[j] in lists
    ensures forall job :: job in Jobs(keys, lists) ==>
              job.cron != "" && exists j :: 0 <= j < |keys| && job == Job(lists[keys[j]].name, TrimSpace(lists[keys[j]].cron))
  {
    if |keys| > 0 {
      var n := |keys| - 1;
      JobsSound(keys[..n], lists);
      forall job | job in Jobs(keys, lists)
        ensures job.cron != "" && exists j :: 0 <= j < |keys| && job == Job(lists[keys[j]].name, TrimSpace(lists[keys[j]].cron))
      {
        if job in Jobs(keys[..n], lists) {
          var j :| 0 <= j < n && job == Job(lists[keys[..n][j]].name, TrimSpace(lists[keys[..n][j]].cron));
          assert keys[..n][j] == keys[j];
        } else {
          assert job == Job(lists[keys[n]].name, TrimSpace(lists[keys[n]].cron));
        }
      }
    }
  }

  /** Every list with a non-blank schedule gets a job. */
  lemma {:induction false} JobsComplete(keys: seq<string>, lists: map<string, CmdList>, j: int)
    requires forall i :: 0 <= i < |keys| ==> keys[i] in lists
    requires 0 <= j < |keys| && TrimSpace(lists[keys[j]].cron) != ""
    ensures Job(lists[keys[j]].name, TrimSpace(lists[keys[j]].cron)) in Jobs(keys, lists)
  {
    if j < |keys| - 1 {
      assert keys[..|keys| - 1][j] == keys[j];
      JobsComplete(keys[..|keys| - 1], lists, j);
    }
  }

  /**
   * As written, a list whose Cron starts with a space is not enqueued when
   * its own job fires: the job passes the trimmed Cron, and RunListConfig
   * compares it with the untrimmed one.
   */
  lemma PaddedJobSkipsItsList(keys: seq<string>, lists: map<string, CmdList>, j: int, k: nat)
    requires forall i :: 0 <= i < |keys| ==> keys[i] in lists
    requires 0 <= j < |keys| && var c := lists[keys[j]].cron; 0 < |c| && IsSpace(c[0]) && k < |c| && !IsSpace(c[k])
    ensures TrimSpace(lists[keys[j]].cron) != ""
    ensures lists[keys[j]] !in ListRuns.Queued(keys, lists, TrimSpace(lists[keys[j]].cron))
  {
    ListRuns.LeadingSpaceNeverRuns(lists[keys[j]].cron, k);
    ListRuns.QueuedSound(keys, lists, TrimSpace(lists[keys[j]].cron));
  }

  /** With the trimmed comparison, a list's job enqueues that list. */
  lemma JobRunsItsList(keys: seq<string>, lists: map<string, CmdList>, j: int)
    requires forall i :: 0 <= i < |keys| ==> keys[i] in lists
    requires 0 <= j < |keys| && TrimSpace(lists[keys[j]].cron) != ""
    ensures lists[keys[j]] in ListRuns.QueuedIntended(keys, lists, TrimSpace(lists[keys[j]].cron))
  {
    ListRuns.QueuedIntendedComplete(keys, lists, TrimSpace(lists[keys[j]].cron), j);
  }

  /** The UI address: the configured address (or none) and the configured port, 8888 when it is 0. */
  function BindAddress(address: string, port: int): string
  {
    if address == "" then
      if port == 0 then ":8888" else ":" + IntToString(port)
    else
      if port != 0 then address + ":" + IntToString(port) else address + ":" + IntToString(DefaultPort)
  }

  lemma DefaultPortText()
    ensures IntToString(DefaultPort) == "8888"
  {
    assert NatToString(8) == "8";
    assert NatToString(88) == "88";
    assert NatToString(888) == "888";
  }

  /** The port actually listened on. */
  function EffectivePort(port: int): (r: int)
    ensures port != 0 ==> r == port
    ensures port == 0 ==> r == DefaultPort
  {
    if port == 0 then DefaultPort else port
  }

  /** The four cases are one rule: the address, a colon, then the effective port. */
  lemma BindAddressForm(address: string, port: int)
    ensures BindAddress(address, port) == address + ":" + IntToString(EffectivePort(port))
  {
    DefaultPortText();
  }

  lemma NoColonInInt(i: int)
    ensures ':' !in IntToString(i)
  {
    var n := if i < 0 then -i else i;
    var s := NatToString(n);
    assert forall k :: 0 <= k < |s| ==> s[k] != ':';
    if i < 0 {
      assert IntToString(i) == "-" + s;
    }
  }

  /** The listener splits the address into the configured host and the effective port. */
  lemma BindAddressSplits(address: string, port: int)
    ensures SplitHostPort(BindAddress(address, port)) == Some(HostPort(address, IntToString(EffectivePort(port))))
    ensures port >= 0 ==> SplitHostPort(BindAddress(address, port)).value.port == NatToString(EffectivePort(port))
  {
    BindAddressForm(address, port);
    NoColonInInt(EffectivePort(port));
    SplitJoinedHostPort(address, IntToString(EffectivePort(port)));
  }

  /** With a non-negative port the digits mean the effective port. */
  lemma BindAddressPortValue(address: string, port: int)
    requires port >= 0
    ensures var p := SplitHostPort(BindAddress(address, port)).value.port;
      (forall k :: 0 <= k < |p| ==> IsDigit(p[k])) && DigitsValue(p) == EffectivePort(port)
  {
    BindAddressSplits(address, port);
    DigitsOfNat(EffectivePort(port));
  }

  /** Jobs are made list by list: the jobs of two key sequences are those of each, in order. */
  lemma {:induction false} JobsAppend(a: seq<string>, b: seq<string>, lists: map<string, CmdList>)
    requires forall j :: 0 <= j < |a| ==> a[j] in lists
    requires forall j :: 0 <= j < |b| ==> b[j] in lists
    ensures forall j :: 0 <= j < |a + b| ==> (a + b)[j] in lists
    ensures Jobs(a + b, lists) == Jobs(a, lists) + Jobs(b, lists)
  {
    assert forall j :: 0 <= j < |a + b| ==> (a + b)[j] in lists by {
      forall j | 0 <= j < |a + b| ensures (a + b)[j] in lists {
        if j >= |a| { assert (a + b)[j] == b[j - |a|]; }
      }
    }
    if |b| == 0 {
      assert a + b == a;
    } else {
      var n := |b| - 1;
      assert (a + b)[..|a + b| - 1] == a + b[..n];
      assert (a + b)[|a + b| - 1] == b[n];
      JobsAppend(a, b[..n], lists);
    }
  }

  /** The jobs after one more list: its job, if it has a schedule, follows. */
  lemma JobsStep(keys: seq<string>, lists: map<string, CmdList>, i: nat)
    requires forall j :: 0 <= j < |keys| ==> keys[j] in lists
    requires i < |keys|
    ensures var l := lists[keys[i]]; var cron := TrimSpace(l.cron);
      Jobs(keys[..i + 1], lists) == Jobs(keys[..i], lists) + (if cron != "" then [Job(l.name, cron)] else [])
  {
    assert keys[..i + 1][..i] == keys[..i];
  }

  /** A refused job stops the loop: the jobs made so far are the ones before it. */
  lemma JobsStopAt(keys: seq<string>, lists: map<string, CmdList>, i: nat, refused: set<string>)
    requires forall j :: 0 <= j < |keys| ==> keys[j] in lists
    requires i < |keys| && TrimSpace(lists[keys[i]].cron) != "" && TrimSpace(lists[keys[i]].cron) in refused
    ensures var all := Jobs(keys, lists); var jobs := Jobs(keys[..i], lists);
      |jobs| < |all| && jobs == all[..|jobs|] && all[|jobs|].cron in refused && all[|jobs|] in all
  {
    var l := lists[keys[i]];
    var job := Job(l.name, TrimSpace(l.cron));
    JobsStep(keys, lists, i);
    JobsSplit(keys, lists, i + 1);
    Middle(Jobs(keys[..i], lists), job, Jobs(keys[i + 1..], lists));
  }

  lemma JobsSplit(keys: seq<string>, lists: map<string, CmdList>, i: nat)
    requires forall j :: 0 <= j < |keys| ==> keys[j] in lists
    requires i <= |keys|
    ensures Jobs(keys, lists) == Jobs(keys[..i], lists) + Jobs(keys[i..], lists)
  {
    assert keys == keys[..i] + keys[i..];
    JobsAppend(keys[..i], keys[i..], lists);
  }

  lemma Middle(pre: seq<Job>, x: Job, post: seq<Job>)
    ensures var all := pre + [x] + post; |pre| < |all| && all[..|pre|] == pre && all[|pre|] == x && x in all
  {
    var all := pre + [x] + post;
    assert all[|pre|] == x;
  }

  /**
   * Cron's job loop: the jobs in order, stopping at the first job the
   * scheduler refuses; `refused` is the set of schedules it refuses.
   */
  method ScheduleJobs(lists: map<string, CmdList>, keys: seq<string>, refused: set<string>) returns (jobs: seq<Job>, exited: bool)
    requires forall j :: 0 <= j < |keys| ==> keys[j] in lists
    ensures exited <==> exists job :: job in Jobs(keys, lists) && job.cron in refused
    ensures !exited ==> jobs == Jobs(keys, lists)
    ensures exited ==> |jobs| < |Jobs(keys, lists)| && jobs == Jobs(keys, lists)[..|jobs|] && Jobs(keys, lists)[|jobs|].cron in refused
    ensures forall job :: job in jobs ==> job.cron !in refused
  {
    jobs := [];
    var i := 0;
    while i < |keys|
      invariant 0 <= i <= |keys|
      invariant jobs == Jobs(keys[..i], lists)
      invariant forall job :: job in jobs ==> job.cron !in refused
    {
      var config := lists[keys[i]];
      var cron := TrimSpace(config.cron);
      JobsStep(keys, lists, i);
      if cron != "" {
        if cron in refused {
          JobsStopAt(keys, lists, i, refused);
          return jobs, true;
        }
        jobs := jobs + [Job(config.name, cron)];
      }
      i := i + 1;
    }
    assert keys[..i] == keys;
    exited := false;
  }

  /** The branches of Cron that settle GoCron.BindAddress. */
  method SetBindAddress(opts: ConfigOpts)
    modifies opts`bindAddress
    ensures opts.bindAddress == BindAddress(old(opts.bindAddress), opts.cronPort)
  {
    if opts.bindAddress == "" {
      if opts.cronPort == 0 {
        opts.bindAddress := ":8888";
      } else {
        opts.bindAddress := ":" + IntToString(opts.cronPort);
      }
    } else {
      if opts.cronPort != 0 {
        opts.bindAddress := opts.bindAddress + ":" + IntToString(opts.cronPort);
      } else {
        opts.bindAddress := opts.bindAddress + ":" + IntToString(DefaultPort);
      }
    }
  }

  /** Cron: the jobs, exiting when the scheduler refuses one, then the UI address. */
  method Cron(opts: ConfigOpts, keys: seq<string>, refused: set<string>) returns (jobs: seq<Job>, exited: bool)
    requires Config.Enumerates(keys, opts.lists)
    modifies opts`bindAddress
    ensures exited <==> exists job :: job in Jobs(keys, opts.lists) && job.cron in refused
    ensures !exited ==> jobs == Jobs(keys, opts.lists) && opts.bindAddress == BindAddress(old(opts.bindAddress), opts.cronPort)
    ensures exited ==> opts.bindAddress == old(opts.bindAddress)
  {
    assert forall j :: 0 <= j < |keys| ==> keys[j] in opts.lists;
    jobs, exited := ScheduleJobs(opts.lists, keys, refused);
    if !exited {
      SetBindAddress(opts);
    }
  }
}
