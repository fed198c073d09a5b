// The list and hook orchestration of pkg/backy/backy.go: ExecuteHooks,
// cmdListWorker, cmdListWorkerWithHosts, ExecuteCmds and the lists that
// RunListConfig and ExecuteListOnHosts enqueue. Running a command is an
// oracle `exec` from the command's key and the host it runs on to an
// outcome; what the run does is an event of the trace.
module ListRuns {
  import opened Wrappers
  import opened Strs
  import opened BackyTypes
  import Ssh
  import Config

  /** An outStruct of a list's notification: the command's name and its output lines. */
  datatype OutRecord = OutRecord(name: string, output: seq<string>)

  datatype Event =
    | Run(cmd: string, host: string)
    | Hook(kind: string, cmd: string)
    /** notifyError: the commands that ran, the records so far and the failed command */
    | NotifyErr(ran: seq<string>, records: seq<OutRecord>, failed: string)
    | NotifySucc(ran: seq<string>, records: seq<OutRecord>)
    /** a nil dereference, which ends the program */
    | Crash

  /** What RunCmd returns: whether the error is nil, and the output lines. */
  datatype Outcome = Outcome(ok: bool, output: seq<string>)

  /** What the workers read of a command. */
  datatype CmdView = CmdView(name: string, hooks: Option<Hooks>, outputInList: bool, host: string)

  function View(c: Command): CmdView
    reads c
  {
    CmdView(c.name, c.hooks, c.outputInList, c.HostString())
  }

  function Views(cmds: map<string, Command>): (r: map<string, CmdView>)
    reads cmds.Values
    ensures r.Keys == cmds.Keys
  {
    map k | k in cmds :: View(cmds[k])
  }

  /** The command names of the runs in a trace. */
  function RunsOf(events: seq<Event>): seq<string>
  {
    if |events| == 0 then []
    else RunsOf(events[..|events| - 1]) + (if events[|events| - 1].Run? then [events[|events| - 1].cmd] else [])
  }

  lemma {:induction false} RunsOfAppend(a: seq<Event>, b: seq<Event>)
    ensures RunsOf(a + b) == RunsOf(a) + RunsOf(b)
  {
    if |b| > 0 {
      assert (a + b)[..|a + b| - 1] == a + b[..|b| - 1];
      RunsOfAppend(a, b[..|b| - 1]);
    } else {
      assert a + b == a;
    }
  }

  lemma {:induction false} RunsOfNoRun(events: seq<Event>)
    requires forall j :: 0 <= j < |events| ==> !events[j].Run?
    ensures RunsOf(events) == []
  {
    if |events| > 0 {
      RunsOfNoRun(events[..|events| - 1]);
    }
  }

  // ---------------------------------------------------------- ExecuteHooks

  function HookRuns(kind: string, names: seq<string>): (r: seq<Event>)
    ensures |r| == |names| && forall j :: 0 <= j < |r| ==> r[j] == Hook(kind, names[j])
  {
    seq(|names|, j requires 0 <= j < |names| => Hook(kind, names[j]))
  }

  /**
   * The hooks ExecuteHooks runs. They run through RunCmd, which never runs
   * hooks, so a hook's own hooks never fire and its result is ignored.
   */
  function HookEvents(kind: string, hooks: Option<Hooks>): (r: seq<Event>)
    ensures forall j :: 0 <= j < |r| ==> r[j].Hook? && r[j].kind == kind
  {
    if hooks.None? then []
    else if kind == "error" then (if |hooks.value.error| > 0 then [Hook("error", hooks.value.error[0])] else [])
    else if kind == "success" then HookRuns("success", hooks.value.success)
    else if kind == "final" then HookRuns("final", hooks.value.final)
    else []
  }

  /**
   * Without hooks nothing runs; of the error hooks only the first runs; the
   * success and final hooks all run, in their order.
   */
  lemma HookEventsShape(kind: string, hooks: Option<Hooks>)
    ensures var r := HookEvents(kind, hooks);
      && (hooks.None? ==> r == [])
      && (kind == "error" ==> |r| <= 1 && (hooks.Some? && |hooks.value.error| > 0 ==> r == [Hook("error", hooks.value.error[0])]))
      && (kind == "success" && hooks.Some? ==> |r| == |hooks.value.success| && forall j :: 0 <= j < |r| ==> r[j].cmd == hooks.value.success[j])
      && (kind == "final" && hooks.Some? ==> |r| == |hooks.value.final| && forall j :: 0 <= j < |r| ==> r[j].cmd == hooks.value.final[j])
  {
  }

  lemma HookEventsNoRun(kind: string, hooks: Option<Hooks>)
    ensures RunsOf(HookEvents(kind, hooks)) == []
  {
    RunsOfNoRun(HookEvents(kind, hooks));
  }

  /** ExecuteHooks: the error loop returns after its first hook. */
  method ExecuteHooks(c: Command, kind: string) returns (events: seq<Event>)
    ensures events == HookEvents(kind, c.hooks)
  {
    events := [];
    if c.hooks.None? {
      return;
    }
    if kind == "error" {
      var hs := c.hooks.value.error;
      if |hs| > 0 {
        events := [Hook("error", hs[0])];
      }
    } else if kind == "success" || kind == "final" {
      var hs := if kind == "success" then c.hooks.value.success else c.hooks.value.final;
      var i := 0;
      while i < |hs|
        invariant 0 <= i <= |hs|
        invariant events == HookRuns(kind, hs[..i])
      {
        events := events + [Hook(kind, hs[i])];
        i := i + 1;
      }
      assert hs[..i] == hs;
    }
  }

  // ----------------------------------------------------------- list worker

  /** What a list worker reads of the list and the commands. */
  datatype ListCtx = ListCtx(notify: bool, onFailure: bool, outputOnSuccess: bool, views: map<string, CmdView>)

  function Ctx(list: CmdList, opts: ConfigOpts): ListCtx
    reads list, opts, opts.cmds.Values
  {
    ListCtx(list.notifyConfig.Some?, list.notifyOnFailure, list.getOutputOnSuccess, Views(opts.cmds))
  }

  /** The variables of a list worker: trace, cmdsRan, outStructArr, hasError, commandExecuted. */
  datatype ListState = ListState(events: seq<Event>, ran: seq<string>, records: seq<OutRecord>,
                                 hasError: bool, last: Option<string>, crashed: bool)

  const Init := ListState([], [], [], false, None, false)

  /** Where a command runs: its own host, or the host the worker was given. */
  function RunHost(ctx: ListCtx, cmd: string, host: Option<string>): string
    requires cmd in ctx.views
  {
    if host.Some? then host.value else ctx.views[cmd].host
  }

  /** Whether the run of `cmd` fails, which breaks the loop over Order. */
  predicate Fails(ctx: ListCtx, cmd: string, host: Option<string>, exec: (string, string) -> Outcome)
    requires cmd in ctx.views
  {
    !exec(cmd, RunHost(ctx, cmd, host)).ok
  }

  /** After a failure: the error hooks, then the error notification when one is configured. */
  function ErrorTail(ctx: ListCtx, st: ListState, cmd: string): seq<Event>
    requires cmd in ctx.views
  {
    HookEvents("error", ctx.views[cmd].hooks) + (if ctx.notify then [NotifyErr(st.ran + [cmd], st.records, cmd)] else [])
  }

  /** After a success: the output record, when the list or the command asks for it. */
  function RecordOf(ctx: ListCtx, cmd: string, output: seq<string>): seq<OutRecord>
    requires cmd in ctx.views
  {
    var c := ctx.views[cmd];
    if ctx.outputOnSuccess || c.outputInList then [OutRecord(c.name, output)] else []
  }

  /** One turn of the loop over Order. */
  function Step(ctx: ListCtx, st: ListState, cmd: string, host: Option<string>, exec: (string, string) -> Outcome): (r: ListState)
    requires cmd in ctx.views
    ensures r.ran == st.ran + [cmd] && r.last == Some(cmd) && r.crashed == st.crashed
  {
    var h := RunHost(ctx, cmd, host);
    if Fails(ctx, cmd, host, exec) then
      ListState(st.events + [Run(cmd, h)] + ErrorTail(ctx, st, cmd), st.ran + [cmd], st.records, true, Some(cmd), st.crashed)
    else
      ListState(st.events + [Run(cmd, h)], st.ran + [cmd], st.records + RecordOf(ctx, cmd, exec(cmd, h).output), st.hasError, Some(cmd), st.crashed)
  }

  /** The loop over Order, which breaks at the first failure. */
  function Sweep(ctx: ListCtx, order: seq<string>, host: Option<string>, exec: (string, string) -> Outcome, st: ListState): (r: ListState)
    requires forall j :: 0 <= j < |order| ==> order[j] in ctx.views
    ensures r.crashed == st.crashed
    ensures (st.last.Some? ==> st.last.value in ctx.views) ==> (r.last.Some? ==> r.last.value in ctx.views)
    decreases |order|
  {
    if |order| == 0 then st
    else if Fails(ctx, order[0], host, exec) then Step(ctx, st, order[0], host, exec)
    else Sweep(ctx, order[1..], host, exec, Step(ctx, st, order[0], host, exec))
  }

  /** The end of a worker's turn: the success notification, then the hooks of the last command run. */
  function Finish(ctx: ListCtx, st: ListState): ListState
    requires st.last.Some? ==> st.last.value in ctx.views
  {
    var notified := if !st.hasError && ctx.notify && ctx.onFailure then st.events + [NotifySucc(st.ran, st.records)] else st.events;
    if st.last.None? then st.(events := notified + [Crash], crashed := true)
    else
      var hooks := ctx.views[st.last.value].hooks;
      st.(events := notified + (if !st.hasError then HookEvents("success", hooks) else []) + HookEvents("final", hooks))
  }

  /** The trace of cmdListWorker for one list. */
  function ListTrace(ctx: ListCtx, order: seq<string>, exec: (string, string) -> Outcome): ListState
    requires forall j :: 0 <= j < |order| ==> order[j] in ctx.views
  {
    Finish(ctx, Sweep(ctx, order, None, exec, Init))
  }

  /** The position of the first command of `order` whose run fails, or |order|. */
  function FirstFail(ctx: ListCtx, order: seq<string>, host: Option<string>, exec: (string, string) -> Outcome): (k: nat)
    requires forall j :: 0 <= j < |order| ==> order[j] in ctx.views
    ensures k <= |order|
  {
    if |order| == 0 then 0
    else if Fails(ctx, order[0], host, exec) then 0
    else 1 + FirstFail(ctx, order[1..], host, exec)
  }

  /** FirstFail is the first failure: every command before it succeeds, and it fails. */
  lemma {:induction false} FirstFailIsFirst(ctx: ListCtx, order: seq<string>, host: Option<string>, exec: (string, string) -> Outcome)
    requires forall j :: 0 <= j < |order| ==> order[j] in ctx.views
    ensures var k := FirstFail(ctx, order, host, exec);
      && (forall j :: 0 <= j < k ==> !Fails(ctx, order[j], host, exec))
      && (k < |order| ==> Fails(ctx, order[k], host, exec))
  {
    if |order| > 0 && !Fails(ctx, order[0], host, exec) {
      FirstFailIsFirst(ctx, order[1..], host, exec);
      var k := FirstFail(ctx, order, host, exec);
      forall j | 0 <= j < k ensures !Fails(ctx, order[j], host, exec) {
        if j > 0 {
          assert order[j] == order[1..][j - 1];
        }
      }
    }
  }

  /** The records of the commands of `order`, all of which succeed. */
  function Records(ctx: ListCtx, order: seq<string>, host: Option<string>, exec: (string, string) -> Outcome): seq<OutRecord>
    requires forall j :: 0 <= j < |order| ==> order[j] in ctx.views
  {
    if |order| == 0 then []
    else
      RecordOf(ctx, order[0], exec(order[0], RunHost(ctx, order[0], host)).output) + Records(ctx, order[1..], host, exec)
  }

  /** The events a loop over Order adds: runs, error hooks and error notifications. */
  predicate LoopEvent(e: Event)
  {
    e.Run? || (e.Hook? && e.kind == "error") || e.NotifyErr?
  }

  /** How many commands the loop runs: those up to and including the first failure. */
  function Ran(ctx: ListCtx, order: seq<string>, host: Option<string>, exec: (string, string) -> Outcome): (n: nat)
    requires forall j :: 0 <= j < |order| ==> order[j] in ctx.views
    ensures n <= |order| && (|order| > 0 ==> n > 0)
  {
    var k := FirstFail(ctx, order, host, exec);
    if k < |order| then k + 1 else k
  }

  /** One turn of the loop adds one run and then only error hooks and error notifications. */
  lemma StepEvents(ctx: ListCtx, st: ListState, cmd: string, host: Option<string>, exec: (string, string) -> Outcome)
    requires cmd in ctx.views
    ensures var st1 := Step(ctx, st, cmd, host, exec);
      && |st1.events| > |st.events| && st1.events[..|st.events|] == st.events
      && (forall j :: |st.events| <= j < |st1.events| ==> LoopEvent(st1.events[j]))
      && RunsOf(st1.events) == RunsOf(st.events) + [cmd]
  {
    var tail := if Fails(ctx, cmd, host, exec) then ErrorTail(ctx, st, cmd) else [];
    assert Step(ctx, st, cmd, host, exec).events == st.events + [Run(cmd, RunHost(ctx, cmd, host))] + tail;
    ErrorTailEvents(ctx, st, cmd);
    RunThenTail(st.events, cmd, RunHost(ctx, cmd, host), tail);
  }

  lemma ErrorTailEvents(ctx: ListCtx, st: ListState, cmd: string)
    requires cmd in ctx.views
    ensures var tail := ErrorTail(ctx, st, cmd); forall j :: 0 <= j < |tail| ==> LoopEvent(tail[j]) && !tail[j].Run?
  {
  }

  /** A run followed by events that are not runs adds exactly that run. */
  lemma RunThenTail(pre: seq<Event>, cmd: string, h: string, tail: seq<Event>)
    requires forall j :: 0 <= j < |tail| ==> LoopEvent(tail[j]) && !tail[j].Run?
    ensures var all := pre + [Run(cmd, h)] + tail;
      && |all| > |pre| && all[..|pre|] == pre
      && (forall j :: |pre| <= j < |all| ==> LoopEvent(all[j]))
      && RunsOf(all) == RunsOf(pre) + [cmd]
  {
    var all := pre + [Run(cmd, h)] + tail;
    assert all[..|pre|] == pre;
    forall j | |pre| <= j < |all| ensures LoopEvent(all[j]) {
      if j > |pre| { assert all[j] == tail[j - |pre| - 1]; }
    }
    RunsOfAppend(pre + [Run(cmd, h)], tail);
    RunsOfAppend(pre, [Run(cmd, h)]);
    RunsOfNoRun(tail);
    assert RunsOf([Run(cmd, h)]) == [cmd] by {
      assert [Run(cmd, h)][..0] == [];
    }
  }

  /** One turn of the loop appends the command to cmdsRan and makes it commandExecuted. */
  lemma StepFields(ctx: ListCtx, st: ListState, cmd: string, host: Option<string>, exec: (string, string) -> Outcome)
    requires cmd in ctx.views
    ensures var st1 := Step(ctx, st, cmd, host, exec);
      st1.ran == st.ran + [cmd] && st1.last == Some(cmd) && st1.hasError == (st.hasError || Fails(ctx, cmd, host, exec))
  {
  }

  /** The loop runs a prefix of Order that ends at the first failure, and fails iff some command fails. */
  lemma SweepRan(ctx: ListCtx, order: seq<string>, host: Option<string>, exec: (string, string) -> Outcome, st: ListState)
    requires forall j :: 0 <= j < |order| ==> order[j] in ctx.views
    ensures var r := Sweep(ctx, order, host, exec, st);
      && r.ran == st.ran + order[..Ran(ctx, order, host, exec)]
      && r.hasError == (st.hasError || FirstFail(ctx, order, host, exec) < |order|)
      && r.last == (if |order| == 0 then st.last else Some(order[Ran(ctx, order, host, exec) - 1]))
  {
    SweepCmdsRan(ctx, order, host, exec, st);
    SweepHasError(ctx, order, host, exec, st);
    SweepLast(ctx, order, host, exec, st);
  }

  lemma {:induction false} SweepCmdsRan(ctx: ListCtx, order: seq<string>, host: Option<string>, exec: (string, string) -> Outcome, st: ListState)
    requires forall j :: 0 <= j < |order| ==> order[j] in ctx.views
    ensures Sweep(ctx, order, host, exec, st).ran == st.ran + order[..Ran(ctx, order, host, exec)]
    decreases |order|
  {
    if |order| > 0 {
      var st1 := Step(ctx, st, order[0], host, exec);
      StepFields(ctx, st, order[0], host, exec);
      if Fails(ctx, order[0], host, exec) {
        assert order[..1] == [order[0]];
      } else {
        var rest := order[1..];
        SweepCmdsRan(ctx, rest, host, exec, st1);
        assert Ran(ctx, order, host, exec) == Ran(ctx, rest, host, exec) + 1;
        assert order[..Ran(ctx, order, host, exec)] == [order[0]] + rest[..Ran(ctx, rest, host, exec)];
      }
    } else {
      assert order[..0] == [];
    }
  }

  lemma {:induction false} SweepHasError(ctx: ListCtx, order: seq<string>, host: Option<string>, exec: (string, string) -> Outcome, st: ListState)
    requires forall j :: 0 <= j < |order| ==> order[j] in ctx.views
    ensures Sweep(ctx, order, host, exec, st).hasError == (st.hasError || FirstFail(ctx, order, host, exec) < |order|)
    decreases |order|
  {
    if |order| > 0 {
      StepFields(ctx, st, order[0], host, exec);
      if !Fails(ctx, order[0], host, exec) {
        SweepHasError(ctx, order[1..], host, exec, Step(ctx, st, order[0], host, exec));
      }
    }
  }

  lemma {:induction false} SweepLast(ctx: ListCtx, order: seq<string>, host: Option<string>, exec: (string, string) -> Outcome, st: ListState)
    requires forall j :: 0 <= j < |order| ==> order[j] in ctx.views
    ensures Sweep(ctx, order, host, exec, st).last == (if |order| == 0 then st.last else Some(order[Ran(ctx, order, host, exec) - 1]))
    decreases |order|
  {
    if |order| > 0 {
      StepFields(ctx, st, order[0], host, exec);
      if !Fails(ctx, order[0], host, exec) {
        var rest := order[1..];
        SweepLast(ctx, rest, host, exec, Step(ctx, st, order[0], host, exec));
        if |rest| > 0 {
          assert Ran(ctx, order, host, exec) == Ran(ctx, rest, host, exec) + 1;
          assert order[Ran(ctx, order, host, exec) - 1] == rest[Ran(ctx, rest, host, exec) - 1];
        }
      }
    }
  }

  /** The loop records exactly the commands before the first failure that ask for their output. */
  lemma {:induction false} SweepRecords(ctx: ListCtx, order: seq<string>, host: Option<string>, exec: (string, string) -> Outcome, st: ListState)
    requires forall j :: 0 <= j < |order| ==> order[j] in ctx.views
    ensures Sweep(ctx, order, host, exec, st).records == st.records + Records(ctx, order[..FirstFail(ctx, order, host, exec)], host, exec)
    decreases |order|
  {
    if |order| > 0 {
      var st1 := Step(ctx, st, order[0], host, exec);
      if Fails(ctx, order[0], host, exec) {
        assert order[..0] == [];
      } else {
        var rest := order[1..];
        SweepRecords(ctx, rest, host, exec, st1);
        var k' := FirstFail(ctx, rest, host, exec);
        assert order[..k' + 1][1..] == rest[..k'];
        assert order[..k' + 1][0] == order[0];
      }
    } else {
      assert order[..0] == [];
    }
  }

  /** The loop only appends runs, error hooks and error notifications. */
  lemma {:induction false} SweepEvents(ctx: ListCtx, order: seq<string>, host: Option<string>, exec: (string, string) -> Outcome, st: ListState)
    requires forall j :: 0 <= j < |order| ==> order[j] in ctx.views
    ensures var r := Sweep(ctx, order, host, exec, st);
      && |r.events| >= |st.events| && r.events[..|st.events|] == st.events
      && (forall j :: |st.events| <= j < |r.events| ==> LoopEvent(r.events[j]))
    decreases |order|
  {
    if |order| > 0 {
      var st1 := Step(ctx, st, order[0], host, exec);
      StepEvents(ctx, st, order[0], host, exec);
      if !Fails(ctx, order[0], host, exec) {
        SweepEvents(ctx, order[1..], host, exec, st1);
        var r := Sweep(ctx, order[1..], host, exec, st1);
        assert forall j :: 0 <= j < |st1.events| ==> r.events[j] == st1.events[j];
      }
    }
  }

  /** After a first command that succeeds, the commands run are it and those run of the rest. */
  lemma RanCons(ctx: ListCtx, order: seq<string>, host: Option<string>, exec: (string, string) -> Outcome)
    requires forall j :: 0 <= j < |order| ==> order[j] in ctx.views
    requires |order| > 0 && !Fails(ctx, order[0], host, exec)
    ensures order[..Ran(ctx, order, host, exec)] == [order[0]] + order[1..][..Ran(ctx, order[1..], host, exec)]
  {
    assert FirstFail(ctx, order, host, exec) == FirstFail(ctx, order[1..], host, exec) + 1;
    var m := Ran(ctx, order[1..], host, exec);
    assert Ran(ctx, order, host, exec) == m + 1;
    assert order[..m + 1] == [order[0]] + order[1..][..m];
  }

  /** The loop adds one run per command it runs, in order. */
  lemma {:induction false} SweepRuns(ctx: ListCtx, order: seq<string>, host: Option<string>, exec: (string, string) -> Outcome, st: ListState)
    requires forall j :: 0 <= j < |order| ==> order[j] in ctx.views
    ensures RunsOf(Sweep(ctx, order, host, exec, st).events) == RunsOf(st.events) + order[..Ran(ctx, order, host, exec)]
    decreases |order|
  {
    if |order| > 0 {
      var st1 := Step(ctx, st, order[0], host, exec);
      StepEvents(ctx, st, order[0], host, exec);
      if Fails(ctx, order[0], host, exec) {
        assert order[..1] == [order[0]];
      } else {
        SweepRuns(ctx, order[1..], host, exec, st1);
        RanCons(ctx, order, host, exec);
      }
    } else {
      assert order[..0] == [];
    }
  }

  /** A list runs its commands strictly in order and stops after the first failing one. */
  lemma ListStopsAtFirstFailure(ctx: ListCtx, order: seq<string>, exec: (string, string) -> Outcome)
    requires forall j :: 0 <= j < |order| ==> order[j] in ctx.views
    ensures var r := Sweep(ctx, order, None, exec, Init);
      && |r.ran| <= |order| && r.ran == order[..|r.ran|]
      && (r.hasError <==> |r.ran| > 0 && !exec(r.ran[|r.ran| - 1], RunHost(ctx, r.ran[|r.ran| - 1], None)).ok)
      && (forall j :: 0 <= j < |r.ran| - 1 ==> exec(r.ran[j], RunHost(ctx, r.ran[j], None)).ok)
      && (!r.hasError ==> r.ran == order)
      && RunsOf(r.events) == r.ran
  {
    SweepFromInit(ctx, order, None, exec);
    RanPrefix(ctx, order, None, exec);
  }

  /** A worker's loop from its initial variables: what it ran, whether it failed, and the runs it traced. */
  lemma SweepFromInit(ctx: ListCtx, order: seq<string>, host: Option<string>, exec: (string, string) -> Outcome)
    requires forall j :: 0 <= j < |order| ==> order[j] in ctx.views
    ensures var r := Sweep(ctx, order, host, exec, Init); var ran := order[..Ran(ctx, order, host, exec)];
      r.ran == ran && RunsOf(r.events) == ran && r.hasError == (FirstFail(ctx, order, host, exec) < |order|)
  {
    var ran := order[..Ran(ctx, order, host, exec)];
    SweepCmdsRan(ctx, order, host, exec, Init);
    SweepHasError(ctx, order, host, exec, Init);
    SweepRuns(ctx, order, host, exec, Init);
    assert [] + ran == ran;
    assert RunsOf([]) == [];
  }

  /** The commands run: all succeed but the last, which fails iff any does; with no failure, all of them. */
  lemma RanPrefix(ctx: ListCtx, order: seq<string>, host: Option<string>, exec: (string, string) -> Outcome)
    requires forall j :: 0 <= j < |order| ==> order[j] in ctx.views
    ensures var ran := order[..Ran(ctx, order, host, exec)];
      && (FirstFail(ctx, order, host, exec) < |order| <==> |ran| > 0 && Fails(ctx, ran[|ran| - 1], host, exec))
      && (forall j :: 0 <= j < |ran| - 1 ==> !Fails(ctx, ran[j], host, exec))
      && (FirstFail(ctx, order, host, exec) == |order| ==> ran == order)
  {
    FirstFailIsFirst(ctx, order, host, exec);
    var n := Ran(ctx, order, host, exec);
    var ran := order[..n];
    assert forall j :: 0 <= j < n ==> ran[j] == order[j];
    if FirstFail(ctx, order, host, exec) == |order| {
      assert ran == order;
    }
  }

  /**
   * The end of a list: the success notification only when nothing failed, a
   * notification is configured and Notify.OnFailure is set; the success
   * hooks of the last command run only when nothing failed; its final hooks
   * always. An empty Order crashes.
   */
  lemma ListEnd(ctx: ListCtx, order: seq<string>, exec: (string, string) -> Outcome)
    requires forall j :: 0 <= j < |order| ==> order[j] in ctx.views
    ensures var s := Sweep(ctx, order, None, exec, Init);
      var r := ListTrace(ctx, order, exec);
      var succ := if !s.hasError && ctx.notify && ctx.onFailure then [NotifySucc(s.ran, s.records)] else [];
      && |r.events| >= |s.events| && r.events[..|s.events|] == s.events
      && (|order| == 0 ==> r.crashed && r.events[|s.events|..] == succ + [Crash])
      && (|order| > 0 ==>
            var hooks := ctx.views[order[Ran(ctx, order, None, exec) - 1]].hooks;
            !r.crashed && r.events[|s.events|..] == succ + (if !s.hasError then HookEvents("success", hooks) else []) + HookEvents("final", hooks))
  {
    var s := Sweep(ctx, order, None, exec, Init);
    SweepRan(ctx, order, None, exec, Init);
    if |order| == 0 {
      FinishCrash(ctx, s);
    } else {
      assert s.last == Some(order[Ran(ctx, order, None, exec) - 1]);
      FinishHooks(ctx, s);
    }
  }

  /** With no last command, Finish keeps the events so far and appends the notification and the crash. */
  lemma FinishCrash(ctx: ListCtx, st: ListState)
    requires st.last.None?
    ensures var r := Finish(ctx, st);
      var succ := if !st.hasError && ctx.notify && ctx.onFailure then [NotifySucc(st.ran, st.records)] else [];
      && r.crashed && |r.events| >= |st.events| && r.events[..|st.events|] == st.events
      && r.events[|st.events|..] == succ + [Crash]
  {
    var succ := if !st.hasError && ctx.notify && ctx.onFailure then [NotifySucc(st.ran, st.records)] else [];
    assert Finish(ctx, st).events == st.events + (succ + [Crash]);
    TakeDropAppend(st.events, succ + [Crash]);
  }

  /** After a last command, Finish keeps the events so far and appends the notification and that command's hooks. */
  lemma FinishHooks(ctx: ListCtx, st: ListState)
    requires st.last.Some? && st.last.value in ctx.views
    ensures var r := Finish(ctx, st);
      var succ := if !st.hasError && ctx.notify && ctx.onFailure then [NotifySucc(st.ran, st.records)] else [];
      var hooks := ctx.views[st.last.value].hooks;
      var rest := (if !st.hasError then HookEvents("success", hooks) else []) + HookEvents("final", hooks);
      && r.crashed == st.crashed && |r.events| >= |st.events| && r.events[..|st.events|] == st.events
      && r.events[|st.events|..] == succ + rest
  {
    var succ := if !st.hasError && ctx.notify && ctx.onFailure then [NotifySucc(st.ran, st.records)] else [];
    var hooks := ctx.views[st.last.value].hooks;
    var rest := (if !st.hasError then HookEvents("success", hooks) else []) + HookEvents("final", hooks);
    assert Finish(ctx, st).events == st.events + (succ + rest);
    TakeDropAppend(st.events, succ + rest);
  }

  /** A concatenation splits back at the length of its first part. */
  lemma TakeDropAppend<T>(a: seq<T>, b: seq<T>)
    ensures (a + b)[..|a|] == a && (a + b)[|a|..] == b
  {
  }

  /** The success notification is sent iff nothing failed, a notification is configured and Notify.OnFailure is set. */
  lemma SuccessNotification(ctx: ListCtx, order: seq<string>, exec: (string, string) -> Outcome)
    requires forall j :: 0 <= j < |order| ==> order[j] in ctx.views
    ensures var r := ListTrace(ctx, order, exec);
      (exists j :: 0 <= j < |r.events| && r.events[j].NotifySucc?) <==>
      FirstFail(ctx, order, None, exec) == |order| && ctx.notify && ctx.onFailure
  {
    var s := Sweep(ctx, order, None, exec, Init);
    var r := ListTrace(ctx, order, exec);
    SweepRan(ctx, order, None, exec, Init);
    SweepEvents(ctx, order, None, exec, Init);
    ListEnd(ctx, order, exec);
    var tail := r.events[|s.events|..];
    assert r.events == s.events + tail;
    if !s.hasError && ctx.notify && ctx.onFailure {
      assert r.events[|s.events|].NotifySucc?;
    } else {
      assert forall j :: 0 <= j < |tail| ==> !tail[j].NotifySucc?;
      NoSuccessNotification(s.events, tail);
    }
  }

  /** Loop events followed by events that are not success notifications hold no success notification. */
  lemma NoSuccessNotification(loop: seq<Event>, tail: seq<Event>)
    requires forall j :: 0 <= j < |loop| ==> LoopEvent(loop[j])
    requires forall j :: 0 <= j < |tail| ==> !tail[j].NotifySucc?
    ensures forall j :: 0 <= j < |loop + tail| ==> !(loop + tail)[j].NotifySucc?
  {
    forall j | 0 <= j < |loop + tail| ensures !(loop + tail)[j].NotifySucc? {
      if j < |loop| {
        assert (loop + tail)[j] == loop[j];
      } else {
        assert (loop + tail)[j] == tail[j - |loop|];
      }
    }
  }

  /** One turn of cmdListWorker's loop: the command runs on its own host, and on failure runs its error hooks. */
  method ListStep(opts: ConfigOpts, list: CmdList, name: string, exec: (string, string) -> Outcome, st0: ListState, ghost ctx: ListCtx)
    returns (st: ListState, failed: bool)
    requires name in opts.cmds && ctx == Ctx(list, opts)
    ensures st == Step(ctx, st0, name, None, exec) && failed == Fails(ctx, name, None, exec)
  {
    var cmdToRun := opts.cmds[name];
    assert ctx.views[name] == View(cmdToRun);
    var host := cmdToRun.HostString();
    var out := exec(name, host);
    var events := st0.events + [Run(name, host)];
    var cmdsRan := st0.ran + [name];
    if !out.ok {
      var hookEvents := ExecuteHooks(cmdToRun, "error");
      events := events + hookEvents;
      if list.notifyConfig.Some? {
        events := events + [NotifyErr(cmdsRan, st0.records, name)];
      }
      return st0.(events := events, ran := cmdsRan, hasError := true, last := Some(name)), true;
    }
    var records := st0.records;
    if list.getOutputOnSuccess || cmdToRun.outputInList {
      records := records + [OutRecord(cmdToRun.name, out.output)];
    }
    st, failed := st0.(events := events, ran := cmdsRan, records := records, last := Some(name)), false;
  }

  /**
   * cmdListWorker for one list taken from the jobs channel: the loop over
   * Order, then the success notification and the hooks of the last command
   * run (commandExecuted).
   */
  method CmdListWorker(opts: ConfigOpts, list: CmdList, exec: (string, string) -> Outcome) returns (st: ListState)
    requires forall j :: 0 <= j < |list.order| ==> list.order[j] in opts.cmds
    ensures st == ListTrace(Ctx(list, opts), list.order, exec)
  {
    ghost var ctx := Ctx(list, opts);
    st := SweepList(opts, list, exec, ctx);
    st := FinishList(opts, list, st, ctx);
  }

  /** cmdListWorker's loop over Order, up to the first failure. */
  method SweepList(opts: ConfigOpts, list: CmdList, exec: (string, string) -> Outcome, ghost ctx: ListCtx) returns (st: ListState)
    requires forall j :: 0 <= j < |list.order| ==> list.order[j] in opts.cmds
    requires ctx == Ctx(list, opts)
    ensures st == Sweep(ctx, list.order, None, exec, Init)
  {
    st := Init;
    var i := 0;
    while i < |list.order|
      invariant 0 <= i <= |list.order|
      invariant !st.crashed && !st.hasError
      invariant Sweep(ctx, list.order, None, exec, Init) == Sweep(ctx, list.order[i..], None, exec, st)
    {
      var name := list.order[i];
      SweepStep(ctx, list.order, i, None, exec, st);
      var failed;
      st, failed := ListStep(opts, list, name, exec, st, ctx);
      if failed {
        return;
      }
      i := i + 1;
    }
  }

  /** The loop from position i: one step, then the rest unless it failed. */
  lemma SweepStep(ctx: ListCtx, order: seq<string>, i: nat, host: Option<string>, exec: (string, string) -> Outcome, st: ListState)
    requires forall j :: 0 <= j < |order| ==> order[j] in ctx.views
    requires i < |order|
    ensures Sweep(ctx, order[i..], host, exec, st) ==
            (if Fails(ctx, order[i], host, exec) then Step(ctx, st, order[i], host, exec)
             else Sweep(ctx, order[i + 1..], host, exec, Step(ctx, st, order[i], host, exec)))
  {
    assert order[i..][0] == order[i] && order[i..][1..] == order[i + 1..];
  }

  /** The end of cmdListWorker's turn. */
  method FinishList(opts: ConfigOpts, list: CmdList, st0: ListState, ghost ctx: ListCtx) returns (st: ListState)
    requires ctx == Ctx(list, opts)
    requires st0.last.Some? ==> st0.last.value in ctx.views
    ensures st == Finish(ctx, st0)
  {
    var events := st0.events;
    if !st0.hasError && list.notifyConfig.Some? && list.notifyOnFailure {
      events := events + [NotifySucc(st0.ran, st0.records)];
    }
    if st0.last.None? {
      return st0.(events := events + [Crash], crashed := true);
    }
    var commandExecuted := opts.cmds[st0.last.value];
    assert ctx.views[st0.last.value] == View(commandExecuted);
    if !st0.hasError {
      var successEvents := ExecuteHooks(commandExecuted, "success");
      events := events + successEvents;
    }
    var finalEvents := ExecuteHooks(commandExecuted, "final");
    st := st0.(events := events + finalEvents);
  }

  // ------------------------------------------------ cmdListWorkerWithHosts

  /**
   * cmdListWorkerWithHosts: the whole list on each host in turn. cmdsRan,
   * outStructArr, hasError and commandExecuted are not reset between hosts,
   * and a crash ends the worker.
   */
  function HostsSweep(ctx: ListCtx, order: seq<string>, hosts: seq<string>, h: nat, exec: (string, string) -> Outcome, st: ListState): ListState
    requires forall j :: 0 <= j < |order| ==> order[j] in ctx.views
    requires st.last.Some? ==> st.last.value in ctx.views
    requires h <= |hosts|
    decreases |hosts| - h
  {
    if h == |hosts| || st.crashed then st
    else HostsSweep(ctx, order, hosts, h + 1, exec, Finish(ctx, Sweep(ctx, order, Some(hosts[h]), exec, st)))
  }

  /** The host loop only appends to the trace. */
  lemma {:induction false} HostsSweepExtends(ctx: ListCtx, order: seq<string>, hosts: seq<string>, h: nat, exec: (string, string) -> Outcome, st: ListState)
    requires forall j :: 0 <= j < |order| ==> order[j] in ctx.views
    requires st.last.Some? ==> st.last.value in ctx.views
    requires h <= |hosts|
    ensures var r := HostsSweep(ctx, order, hosts, h, exec, st);
      |r.events| >= |st.events| && r.events[..|st.events|] == st.events
    decreases |hosts| - h
  {
    if h < |hosts| && !st.crashed {
      var s := Sweep(ctx, order, Some(hosts[h]), exec, st);
      SweepEvents(ctx, order, Some(hosts[h]), exec, st);
      var f := Finish(ctx, s);
      assert f.events[..|s.events|] == s.events;
      HostsSweepExtends(ctx, order, hosts, h + 1, exec, f);
      var r := HostsSweep(ctx, order, hosts, h + 1, exec, f);
      assert r.events[..|st.events|] == r.events[..|f.events|][..|st.events|];
    }
  }

  /** Once a command has failed on one host, no later host gets success hooks or a success notification. */
  lemma {:induction false} FailureSticks(ctx: ListCtx, order: seq<string>, hosts: seq<string>, h: nat, exec: (string, string) -> Outcome, st: ListState)
    requires forall j :: 0 <= j < |order| ==> order[j] in ctx.views
    requires st.last.Some? ==> st.last.value in ctx.views
    requires st.hasError && h <= |hosts|
    ensures var r := HostsSweep(ctx, order, hosts, h, exec, st);
      r.hasError && |r.events| >= |st.events| &&
      forall j :: |st.events| <= j < |r.events| ==> !r.events[j].NotifySucc? && !(r.events[j].Hook? && r.events[j].kind == "success")
    decreases |hosts| - h
  {
    if h < |hosts| && !st.crashed {
      var s := Sweep(ctx, order, Some(hosts[h]), exec, st);
      SweepRan(ctx, order, Some(hosts[h]), exec, st);
      SweepEvents(ctx, order, Some(hosts[h]), exec, st);
      var f := Finish(ctx, s);
      if s.last.Some? {
        assert f.events == s.events + HookEvents("final", ctx.views[s.last.value].hooks);
      } else {
        assert f.events == s.events + [Crash];
      }
      FailureSticks(ctx, order, hosts, h + 1, exec, f);
      HostsSweepExtends(ctx, order, hosts, h + 1, exec, f);
      var r := HostsSweep(ctx, order, hosts, h + 1, exec, f);
      forall j | |st.events| <= j < |r.events|
        ensures !r.events[j].NotifySucc? && !(r.events[j].Hook? && r.events[j].kind == "success")
      {
        if j < |s.events| {
          assert r.events[j] == s.events[j] && LoopEvent(s.events[j]);
        } else if j < |f.events| {
          assert r.events[j] == f.events[j];
        }
      }
    }
  }

  /** The Host strings of the hosts, in order. */
  function HostNames(hosts: seq<Ssh.Host>): (r: seq<string>)
    reads set j | 0 <= j < |hosts| :: hosts[j]
    ensures |r| == |hosts| && forall j :: 0 <= j < |r| ==> r[j] == hosts[j].host
  {
    if |hosts| == 0 then [] else HostNames(hosts[..|hosts| - 1]) + [hosts[|hosts| - 1].host]
  }

  /** A command's Host and RemoteHost, the two fields the host loop of cmdListWorkerWithHosts sets. */
  type HostPair = (Option<string>, Option<Ssh.Host>)

  function Pair(c: Command): HostPair
    reads c
  {
    (c.host, c.remoteHost)
  }

  /** The Host string of a pair, "" for an unset Host, as Command.HostString. */
  function HostStr(p: HostPair): string
  {
    if p.0.None? then "" else p.0.value
  }

  /** The pair of a command after it runs on `host`: it takes the host when its Host string differs from the host's. */
  function TakenHost(p: HostPair, hostName: string, host: Ssh.Host): (r: HostPair)
    ensures HostStr(r) == hostName
    ensures r == p || r == (Some(hostName), Some(host))
  {
    if HostStr(p) != hostName then (Some(hostName), Some(host)) else p
  }

  /**
   * The pair of command `c`, starting from `p`, after the first n names of
   * Order have run on the host: each name that denotes `c` makes it take the
   * host.
   */
  function Turned(cmds: map<string, Command>, c: Command, p: HostPair, order: seq<string>, n: nat, hostName: string, host: Ssh.Host): HostPair
    requires n <= |order|
  {
    if n == 0 then p
    else
      var q := Turned(cmds, c, p, order, n - 1, hostName, host);
      if order[n - 1] in cmds && cmds[order[n - 1]] == c then TakenHost(q, hostName, host) else q
  }

  /** A command that ran on the host ends with the host's name as its Host; one that did not keeps its pair. */
  lemma {:induction false} TurnedHost(cmds: map<string, Command>, c: Command, p: HostPair, order: seq<string>, n: nat, hostName: string, host: Ssh.Host)
    requires n <= |order|
    ensures var r := Turned(cmds, c, p, order, n, hostName, host);
      r == p || r == (Some(hostName), Some(host))
    ensures (exists j :: 0 <= j < n && order[j] in cmds && cmds[order[j]] == c) ==>
      HostStr(Turned(cmds, c, p, order, n, hostName, host)) == hostName
    ensures (forall j :: 0 <= j < n && order[j] in cmds ==> cmds[order[j]] != c) ==>
      Turned(cmds, c, p, order, n, hostName, host) == p
  {
    if n > 0 {
      TurnedHost(cmds, c, p, order, n - 1, hostName, host);
    }
  }

  /**
   * The pair of command `c` after cmdListWorkerWithHosts's host loop from
   * host h on, host by host as HostsSweep: on each host it takes the host
   * if it ran there, until a crash.
   */
  function HostsAfter(ctx: ListCtx, cmds: map<string, Command>, c: Command, p: HostPair, order: seq<string>, names: seq<string>,
                      hosts: seq<Ssh.Host>, h: nat, exec: (string, string) -> Outcome, st: ListState): HostPair
    requires forall j :: 0 <= j < |order| ==> order[j] in ctx.views
    requires st.last.Some? ==> st.last.value in ctx.views
    requires h <= |hosts| && |names| == |hosts|
    decreases |hosts| - h
  {
    if h == |hosts| || st.crashed then p
    else
      HostsAfter(ctx, cmds, c, Turned(cmds, c, p, order, Ran(ctx, order, Some(names[h]), exec), names[h], hosts[h]), order,
                 names, hosts, h + 1, exec, Finish(ctx, Sweep(ctx, order, Some(names[h]), exec, st)))
  }

  /** After the host loop, every command has its own pair or took one of the hosts. */
  lemma {:induction false} HostsAfterFrom(ctx: ListCtx, cmds: map<string, Command>, c: Command, p: HostPair, order: seq<string>,
                                          names: seq<string>, hosts: seq<Ssh.Host>, h: nat, exec: (string, string) -> Outcome, st: ListState)
    requires forall j :: 0 <= j < |order| ==> order[j] in ctx.views
    requires st.last.Some? ==> st.last.value in ctx.views
    requires h <= |hosts| && |names| == |hosts|
    ensures var r := HostsAfter(ctx, cmds, c, p, order, names, hosts, h, exec, st);
      r == p || exists j :: h <= j < |hosts| && r == (Some(names[j]), Some(hosts[j]))
    decreases |hosts| - h
  {
    if h < |hosts| && !st.crashed {
      var q := Turned(cmds, c, p, order, Ran(ctx, order, Some(names[h]), exec), names[h], hosts[h]);
      TurnedHost(cmds, c, p, order, Ran(ctx, order, Some(names[h]), exec), names[h], hosts[h]);
      HostsAfterFrom(ctx, cmds, c, q, order, names, hosts, h + 1, exec, Finish(ctx, Sweep(ctx, order, Some(names[h]), exec, st)));
    }
  }

  /** What the worker reads of the commands stays as it was when the worker started. */
  predicate SameViews(cmds: map<string, Command>, views: map<string, CmdView>)
    reads cmds.Values
  {
    cmds.Keys == views.Keys &&
    forall k :: k in cmds ==> cmds[k].name == views[k].name && cmds[k].outputInList == views[k].outputInList && cmds[k].hooks == views[k].hooks
  }

  /**
   * cmdListWorkerWithHosts for one list and the hosts it takes from the
   * hosts channel. A command whose Host differs from the host's gets that
   * Host and RemoteHost before it runs.
   */
  method CmdListWorkerWithHosts(opts: ConfigOpts, list: CmdList, hosts: seq<Ssh.Host>, exec: (string, string) -> Outcome)
    returns (st: ListState)
    requires forall j :: 0 <= j < |list.order| ==> list.order[j] in opts.cmds
    modifies opts.cmds.Values`host, opts.cmds.Values`remoteHost
    ensures st == HostsSweep(old(Ctx(list, opts)), list.order, old(HostNames(hosts)), 0, exec, Init)
    ensures forall k :: k in opts.cmds ==>
      Pair(opts.cmds[k]) == HostsAfter(old(Ctx(list, opts)), opts.cmds, opts.cmds[k], old(Pair(opts.cmds[k])), list.order, old(HostNames(hosts)), hosts, 0, exec, Init)
  {
    ghost var ctx := Ctx(list, opts);
    var names := HostNames(hosts);
    var h;
    st, h := WorkerLoop(opts, list, names, hosts, exec, ctx);
  }

  /** The loop of CmdListWorkerWithHosts: it stops after the last host or the first crash. */
  method WorkerLoop(opts: ConfigOpts, list: CmdList, names: seq<string>, hosts: seq<Ssh.Host>, exec: (string, string) -> Outcome,
                    ghost ctx: ListCtx) returns (st: ListState, h: nat)
    requires forall j :: 0 <= j < |list.order| ==> list.order[j] in opts.cmds
    requires ctx.notify == list.notifyConfig.Some? && ctx.outputOnSuccess == list.getOutputOnSuccess && ctx.onFailure == list.notifyOnFailure
    requires |names| == |hosts| && SameViews(opts.cmds, ctx.views)
    modifies opts.cmds.Values`host, opts.cmds.Values`remoteHost
    ensures st == HostsSweep(ctx, list.order, names, 0, exec, Init)
    ensures forall k :: k in opts.cmds ==>
      Pair(opts.cmds[k]) == HostsAfter(ctx, opts.cmds, opts.cmds[k], old(Pair(opts.cmds[k])), list.order, names, hosts, 0, exec, Init)
  {
    st := Init;
    h := 0;
    while h < |hosts| && !st.crashed
      invariant 0 <= h <= |hosts| && |names| == |hosts|
      invariant SameViews(opts.cmds, ctx.views)
      invariant st.last.Some? ==> st.last.value in ctx.views
      invariant HostsSweep(ctx, list.order, names, 0, exec, Init) == HostsSweep(ctx, list.order, names, h, exec, st)
      invariant forall k :: k in opts.cmds ==>
                  HostsAfter(ctx, opts.cmds, opts.cmds[k], old(Pair(opts.cmds[k])), list.order, names, hosts, 0, exec, Init) ==
                  HostsAfter(ctx, opts.cmds, opts.cmds[k], Pair(opts.cmds[k]), list.order, names, hosts, h, exec, st)
    {
      st := WorkerStep(opts, list, names, hosts, exec, ctx, h, st);
      h := h + 1;
    }
  }

  /** One host of CmdListWorkerWithHosts's loop: the invariant moves on to the next host. */
  method WorkerStep(opts: ConfigOpts, list: CmdList, names: seq<string>, hosts: seq<Ssh.Host>, exec: (string, string) -> Outcome,
                    ghost ctx: ListCtx, h: nat, st: ListState) returns (st': ListState)
    requires forall j :: 0 <= j < |list.order| ==> list.order[j] in opts.cmds
    requires ctx.notify == list.notifyConfig.Some? && ctx.outputOnSuccess == list.getOutputOnSuccess && ctx.onFailure == list.notifyOnFailure
    requires h < |hosts| && |names| == |hosts| && !st.crashed
    requires SameViews(opts.cmds, ctx.views)
    requires st.last.Some? ==> st.last.value in ctx.views
    modifies opts.cmds.Values`host, opts.cmds.Values`remoteHost
    ensures SameViews(opts.cmds, ctx.views)
    ensures st'.last.Some? ==> st'.last.value in ctx.views
    ensures HostsSweep(ctx, list.order, names, h, exec, st) == HostsSweep(ctx, list.order, names, h + 1, exec, st')
    ensures forall k :: k in opts.cmds ==>
              HostsAfter(ctx, opts.cmds, opts.cmds[k], old(Pair(opts.cmds[k])), list.order, names, hosts, h, exec, st) ==
              HostsAfter(ctx, opts.cmds, opts.cmds[k], Pair(opts.cmds[k]), list.order, names, hosts, h + 1, exec, st')
  {
    forall k | k in opts.cmds {
      HostsAfterStep(ctx, opts.cmds, opts.cmds[k], Pair(opts.cmds[k]), list.order, names, hosts, h, exec, st);
    }
    st' := HostTurn(opts, list, hosts[h], names[h], exec, st, ctx);
  }

  /** One more host of the loop. */
  lemma HostsAfterStep(ctx: ListCtx, cmds: map<string, Command>, c: Command, p: HostPair, order: seq<string>, names: seq<string>,
                       hosts: seq<Ssh.Host>, h: nat, exec: (string, string) -> Outcome, st: ListState)
    requires forall j :: 0 <= j < |order| ==> order[j] in ctx.views
    requires st.last.Some? ==> st.last.value in ctx.views
    requires h < |hosts| && |names| == |hosts| && !st.crashed
    ensures HostsAfter(ctx, cmds, c, p, order, names, hosts, h, exec, st) ==
            HostsAfter(ctx, cmds, c, Turned(cmds, c, p, order, Ran(ctx, order, Some(names[h]), exec), names[h], hosts[h]), order,
                       names, hosts, h + 1, exec, Finish(ctx, Sweep(ctx, order, Some(names[h]), exec, st)))
  {
  }

  /** One host's turn: the loop over Order, then the end of the turn. */
  method HostTurn(opts: ConfigOpts, list: CmdList, host: Ssh.Host, hostName: string, exec: (string, string) -> Outcome,
                  st0: ListState, ghost ctx: ListCtx) returns (st: ListState)
    requires forall j :: 0 <= j < |list.order| ==> list.order[j] in opts.cmds
    requires ctx.notify == list.notifyConfig.Some? && ctx.outputOnSuccess == list.getOutputOnSuccess && ctx.onFailure == list.notifyOnFailure
    requires SameViews(opts.cmds, ctx.views)
    requires st0.last.Some? ==> st0.last.value in ctx.views
    requires !st0.crashed
    modifies opts.cmds.Values`host, opts.cmds.Values`remoteHost
    ensures st == Finish(ctx, Sweep(ctx, list.order, Some(hostName), exec, st0))
    ensures SameViews(opts.cmds, ctx.views)
    ensures st.last.Some? ==> st.last.value in ctx.views
    ensures forall k :: k in opts.cmds ==>
      Pair(opts.cmds[k]) == Turned(opts.cmds, opts.cmds[k], old(Pair(opts.cmds[k])), list.order, Ran(ctx, list.order, Some(hostName), exec), hostName, host)
  {
    var swept := SweepOnHost(opts, list, host, hostName, exec, st0, ctx);
    st := FinishOnHost(opts, list, swept, ctx);
  }

  /** The loop over Order for one host. */
  method SweepOnHost(opts: ConfigOpts, list: CmdList, host: Ssh.Host, hostName: string, exec: (string, string) -> Outcome, st0: ListState, ghost ctx: ListCtx)
    returns (st: ListState)
    requires forall j :: 0 <= j < |list.order| ==> list.order[j] in opts.cmds
    requires SameViews(opts.cmds, ctx.views) && ctx.notify == list.notifyConfig.Some? && ctx.outputOnSuccess == list.getOutputOnSuccess
    requires !st0.crashed
    modifies opts.cmds.Values`host, opts.cmds.Values`remoteHost
    ensures st == Sweep(ctx, list.order, Some(hostName), exec, st0)
    ensures SameViews(opts.cmds, ctx.views)
    ensures forall k :: k in opts.cmds ==>
      Pair(opts.cmds[k]) == Turned(opts.cmds, opts.cmds[k], old(Pair(opts.cmds[k])), list.order, Ran(ctx, list.order, Some(hostName), exec), hostName, host)
  {
    ghost var pairs0 := map k | k in opts.cmds :: Pair(opts.cmds[k]);
    var n;
    st, n := SweepLoop(opts, list, host, hostName, exec, st0, ctx, pairs0);
    RanOnHost(ctx, list.order, hostName, exec, st0, st, n);
  }

  /** The loop of SweepOnHost, stated by the number n of names it ran. */
  method SweepLoop(opts: ConfigOpts, list: CmdList, host: Ssh.Host, hostName: string, exec: (string, string) -> Outcome, st0: ListState,
                   ghost ctx: ListCtx, ghost pairs0: map<string, HostPair>)
    returns (st: ListState, n: nat)
    requires forall j :: 0 <= j < |list.order| ==> list.order[j] in opts.cmds
    requires SameViews(opts.cmds, ctx.views) && ctx.notify == list.notifyConfig.Some? && ctx.outputOnSuccess == list.getOutputOnSuccess
    requires !st0.crashed && pairs0.Keys == opts.cmds.Keys
    requires forall k :: k in opts.cmds ==> Pair(opts.cmds[k]) == pairs0[k]
    modifies opts.cmds.Values`host, opts.cmds.Values`remoteHost
    ensures n <= |list.order| && st == Sweep(ctx, list.order, Some(hostName), exec, st0) && |st.ran| == |st0.ran| + n
    ensures SameViews(opts.cmds, ctx.views)
    ensures forall k :: k in opts.cmds ==> Pair(opts.cmds[k]) == Turned(opts.cmds, opts.cmds[k], pairs0[k], list.order, n, hostName, host)
  {
    st := st0;
    var failed := false;
    n := 0;
    while n < |list.order| && !failed
      invariant 0 <= n <= |list.order|
      invariant SameViews(opts.cmds, ctx.views)
      invariant !st.crashed && |st.ran| == |st0.ran| + n
      invariant Sweep(ctx, list.order, Some(hostName), exec, st0) == (if failed then st else Sweep(ctx, list.order[n..], Some(hostName), exec, st))
      invariant forall k :: k in opts.cmds ==> Pair(opts.cmds[k]) == Turned(opts.cmds, opts.cmds[k], pairs0[k], list.order, n, hostName, host)
    {
      st, failed := SweepOnHostStep(opts, list, host, hostName, exec, st0, ctx, pairs0, n, st, opts.cmds[list.order[n]]);
      n := n + 1;
    }
    assert !failed ==> list.order[n..] == [];
  }

  /** One name of Order on the host: the invariant moves on, or the run fails and the sweep ends there. */
  method SweepOnHostStep(opts: ConfigOpts, list: CmdList, host: Ssh.Host, hostName: string, exec: (string, string) -> Outcome,
                         st0: ListState, ghost ctx: ListCtx, ghost pairs0: map<string, HostPair>, i: nat, st: ListState, c: Command)
    returns (st': ListState, failed: bool)
    requires forall j :: 0 <= j < |list.order| ==> list.order[j] in opts.cmds
    requires ctx.notify == list.notifyConfig.Some? && ctx.outputOnSuccess == list.getOutputOnSuccess
    requires i < |list.order| && c == opts.cmds[list.order[i]]
    requires SameViews(opts.cmds, ctx.views) && pairs0.Keys == opts.cmds.Keys
    requires !st.crashed && |st.ran| == |st0.ran| + i
    requires Sweep(ctx, list.order, Some(hostName), exec, st0) == Sweep(ctx, list.order[i..], Some(hostName), exec, st)
    requires forall k :: k in opts.cmds ==> (opts.cmds[k].host, opts.cmds[k].remoteHost) == Turned(opts.cmds, opts.cmds[k], pairs0[k], list.order, i, hostName, host)
    modifies c`host, c`remoteHost
    ensures SameViews(opts.cmds, ctx.views)
    ensures !st'.crashed && |st'.ran| == |st0.ran| + i + 1
    ensures Sweep(ctx, list.order, Some(hostName), exec, st0) == (if failed then st' else Sweep(ctx, list.order[i + 1..], Some(hostName), exec, st'))
    ensures forall k :: k in opts.cmds ==> (opts.cmds[k].host, opts.cmds[k].remoteHost) == Turned(opts.cmds, opts.cmds[k], pairs0[k], list.order, i + 1, hostName, host)
  {
    var name := list.order[i];
    SweepStep(ctx, list.order, i, Some(hostName), exec, st);
    st', failed := StepOnHost(opts, list, host, hostName, name, c, exec, st, ctx);
  }

  /** The command takes the host unless its Host string already is the host's. */
  method TakeHost(c: Command, hostName: string, host: Ssh.Host)
    modifies c`host, c`remoteHost
    ensures old(c.HostString()) != hostName ==> c.host == Some(hostName) && c.remoteHost == Some(host)
    ensures old(c.HostString()) == hostName ==> c.host == old(c.host) && c.remoteHost == old(c.remoteHost)
    ensures Pair(c) == TakenHost(old(Pair(c)), hostName, host)
  {
    if c.HostString() != hostName {
      c.host := Some(hostName);
      c.remoteHost := Some(host);
    }
  }

  /** The names the loop has run are the first Ran names of Order. */
  lemma RanOnHost(ctx: ListCtx, order: seq<string>, hostName: string, exec: (string, string) -> Outcome, st0: ListState, st: ListState, n: nat)
    requires forall j :: 0 <= j < |order| ==> order[j] in ctx.views
    requires n <= |order| && st == Sweep(ctx, order, Some(hostName), exec, st0) && |st.ran| == |st0.ran| + n
    ensures n == Ran(ctx, order, Some(hostName), exec)
  {
    SweepRan(ctx, order, Some(hostName), exec, st0);
  }

  /** One command of the list on one host: it takes the host, runs, and on failure runs its error hooks. */
  method StepOnHost(opts: ConfigOpts, list: CmdList, host: Ssh.Host, hostName: string, name: string, cmdToRun: Command,
                    exec: (string, string) -> Outcome, st0: ListState, ghost ctx: ListCtx)
    returns (st: ListState, failed: bool)
    requires name in opts.cmds && cmdToRun == opts.cmds[name]
    requires SameViews(opts.cmds, ctx.views) && ctx.notify == list.notifyConfig.Some? && ctx.outputOnSuccess == list.getOutputOnSuccess
    modifies cmdToRun`host, cmdToRun`remoteHost
    ensures st == Step(ctx, st0, name, Some(hostName), exec) && failed == Fails(ctx, name, Some(hostName), exec)
    ensures old(cmdToRun.HostString()) != hostName ==> cmdToRun.host == Some(hostName) && cmdToRun.remoteHost == Some(host)
    ensures old(cmdToRun.HostString()) == hostName ==> cmdToRun.host == old(cmdToRun.host) && cmdToRun.remoteHost == old(cmdToRun.remoteHost)
    ensures Pair(cmdToRun) == TakenHost(old(Pair(cmdToRun)), hostName, host)
  {
    TakeHost(cmdToRun, hostName, host);
    st, failed := RunOnHost(opts, list, hostName, name, cmdToRun, exec, st0, ctx);
  }

  /** The run of one command on the host, once the command has taken it. */
  method RunOnHost(opts: ConfigOpts, list: CmdList, hostName: string, name: string, cmdToRun: Command,
                   exec: (string, string) -> Outcome, st0: ListState, ghost ctx: ListCtx)
    returns (st: ListState, failed: bool)
    requires name in opts.cmds && cmdToRun == opts.cmds[name]
    requires SameViews(opts.cmds, ctx.views) && ctx.notify == list.notifyConfig.Some? && ctx.outputOnSuccess == list.getOutputOnSuccess
    ensures st == Step(ctx, st0, name, Some(hostName), exec) && failed == Fails(ctx, name, Some(hostName), exec)
  {
    var out := exec(name, hostName);
    var events := st0.events + [Run(name, hostName)];
    var cmdsRan := st0.ran + [name];
    if !out.ok {
      var hookEvents := ExecuteHooks(cmdToRun, "error");
      events := events + hookEvents;
      if list.notifyConfig.Some? {
        events := events + [NotifyErr(cmdsRan, st0.records, name)];
      }
      return st0.(events := events, ran := cmdsRan, hasError := true, last := Some(name)), true;
    }
    var records := st0.records;
    if list.getOutputOnSuccess || cmdToRun.outputInList {
      records := records + [OutRecord(cmdToRun.name, out.output)];
    }
    st, failed := st0.(events := events, ran := cmdsRan, records := records, last := Some(name)), false;
  }

  /** The end of one host's turn. */
  method FinishOnHost(opts: ConfigOpts, list: CmdList, st0: ListState, ghost ctx: ListCtx) returns (st: ListState)
    requires SameViews(opts.cmds, ctx.views) && ctx.notify == list.notifyConfig.Some? && ctx.onFailure == list.notifyOnFailure
    requires st0.last.Some? ==> st0.last.value in ctx.views
    ensures st == Finish(ctx, st0)
  {
    var events := st0.events;
    if !st0.hasError && list.notifyConfig.Some? && list.notifyOnFailure {
      events := events + [NotifySucc(st0.ran, st0.records)];
    }
    if st0.last.None? {
      return st0.(events := events + [Crash], crashed := true);
    }
    var commandExecuted := opts.cmds[st0.last.value];
    if !st0.hasError {
      var successEvents := ExecuteHooks(commandExecuted, "success");
      events := events + successEvents;
    }
    var finalEvents := ExecuteHooks(commandExecuted, "final");
    st := st0.(events := events + finalEvents);
  }

  // ------------------------------------------------------------- ExecuteCmds

  /** The events of one command of ExecuteCmds: its run, its error or success hooks, its final hooks. */
  function CmdTrace(views: map<string, CmdView>, cmd: string, exec: (string, string) -> Outcome): seq<Event>
    requires cmd in views
  {
    var c := views[cmd];
    [Run(cmd, c.host)]
    + (if exec(cmd, c.host).ok then HookEvents("success", c.hooks) else HookEvents("error", c.hooks))
    + HookEvents("final", c.hooks)
  }

  function ExecTrace(views: map<string, CmdView>, cmds: seq<string>, exec: (string, string) -> Outcome): seq<Event>
    requires forall j :: 0 <= j < |cmds| ==> cmds[j] in views
  {
    if |cmds| == 0 then []
    else ExecTrace(views, cmds[..|cmds| - 1], exec) + CmdTrace(views, cmds[|cmds| - 1], exec)
  }

  lemma CmdTraceRuns(views: map<string, CmdView>, cmd: string, exec: (string, string) -> Outcome)
    requires cmd in views
    ensures RunsOf(CmdTrace(views, cmd, exec)) == [cmd]
  {
    var c := views[cmd];
    var hooks := (if exec(cmd, c.host).ok then HookEvents("success", c.hooks) else HookEvents("error", c.hooks)) + HookEvents("final", c.hooks);
    assert CmdTrace(views, cmd, exec) == [Run(cmd, c.host)] + hooks;
    RunsOfAppend([Run(cmd, c.host)], hooks);
    RunsOfNoRun(hooks);
    assert RunsOf([Run(cmd, c.host)]) == [cmd] by {
      assert [Run(cmd, c.host)][..0] == [];
    }
  }

  /** ExecuteCmds runs every requested command, in order, whatever the earlier ones returned. */
  lemma {:induction false} EveryCommandRuns(views: map<string, CmdView>, cmds: seq<string>, exec: (string, string) -> Outcome)
    requires forall j :: 0 <= j < |cmds| ==> cmds[j] in views
    ensures RunsOf(ExecTrace(views, cmds, exec)) == cmds
  {
    if |cmds| > 0 {
      var n := |cmds| - 1;
      EveryCommandRuns(views, cmds[..n], exec);
      CmdTraceRuns(views, cmds[n], exec);
      RunsOfAppend(ExecTrace(views, cmds[..n], exec), CmdTrace(views, cmds[n], exec));
      assert cmds[..n] + [cmds[n]] == cmds;
    }
  }

  /** Exactly one of the error and success hook sets of a command runs, then its final hooks. */
  lemma OneOutcomeHooks(views: map<string, CmdView>, cmd: string, exec: (string, string) -> Outcome)
    requires cmd in views
    ensures var c := views[cmd];
      CmdTrace(views, cmd, exec)[1..] ==
        (if exec(cmd, c.host).ok then HookEvents("success", c.hooks) else HookEvents("error", c.hooks)) + HookEvents("final", c.hooks)
  {
  }

  /** One requested command: it runs on its host, then its error or success hooks, then its final hooks. */
  method ExecuteCmd(cmdToRun: Command, name: string, exec: (string, string) -> Outcome, ghost views: map<string, CmdView>)
    returns (events: seq<Event>)
    requires name in views && views[name] == View(cmdToRun)
    ensures events == CmdTrace(views, name, exec)
  {
    var host := cmdToRun.HostString();
    var out := exec(name, host);
    events := [Run(name, host)];
    var hookEvents;
    if !out.ok {
      hookEvents := ExecuteHooks(cmdToRun, "error");
    } else {
      hookEvents := ExecuteHooks(cmdToRun, "success");
    }
    var finalEvents := ExecuteHooks(cmdToRun, "final");
    events := events + hookEvents + finalEvents;
  }

  lemma ExecTraceSnoc(views: map<string, CmdView>, cmds: seq<string>, i: nat, exec: (string, string) -> Outcome)
    requires i < |cmds| && forall j :: 0 <= j < |cmds| ==> cmds[j] in views
    ensures ExecTrace(views, cmds[..i + 1], exec) == ExecTrace(views, cmds[..i], exec) + CmdTrace(views, cmds[i], exec)
  {
    assert cmds[..i + 1][..i] == cmds[..i];
    assert cmds[..i + 1][i] == cmds[i];
  }

  /** ExecuteCmds */
  method ExecuteCmds(opts: ConfigOpts, exec: (string, string) -> Outcome) returns (events: seq<Event>)
    requires forall j :: 0 <= j < |opts.executeCmds| ==> opts.executeCmds[j] in opts.cmds
    ensures events == ExecTrace(Views(opts.cmds), opts.executeCmds, exec)
  {
    ghost var views := Views(opts.cmds);
    events := [];
    var i := 0;
    while i < |opts.executeCmds|
      invariant 0 <= i <= |opts.executeCmds|
      invariant events == ExecTrace(views, opts.executeCmds[..i], exec)
    {
      var name := opts.executeCmds[i];
      var cmdEvents := ExecuteCmd(opts.cmds[name], name, exec, views);
      ExecTraceSnoc(views, opts.executeCmds, i, exec);
      events := events + cmdEvents;
      i := i + 1;
    }
    assert opts.executeCmds[..i] == opts.executeCmds;
  }

  // ------------------------------------------------------------- enqueuing

  /** RunListConfig's filter as written: the cron string against the list's untrimmed Cron. */
  predicate EnqueuedAsWritten(cron: string, listCron: string)
  {
    cron == "" || cron == listCron
  }

  /** The filter with the trimming Cron applies when it schedules the list. */
  predicate Enqueued(cron: string, listCron: string)
  {
    cron == "" || cron == TrimSpace(listCron)
  }

  /**
   * Cron schedules a list by its trimmed Cron, and the filter as written
   * compares that with the untrimmed Cron: a list whose Cron starts with a
   * space never runs from its own job.
   */
  lemma LeadingSpaceNeverRuns(listCron: string, k: nat)
    requires 0 < |listCron| && IsSpace(listCron[0])
    requires k < |listCron| && !IsSpace(listCron[k])
    ensures TrimSpace(listCron) != "" && !EnqueuedAsWritten(TrimSpace(listCron), listCron)
  {
    TrimSpaceBlank(listCron);
    assert |TrimLeftSpace(listCron)| < |listCron|;
  }

  /** The schedule " 0 3 * * *" is one: its job passes "0 3 * * *", which the filter as written rejects. */
  lemma PaddedCronNeverRuns()
    ensures TrimSpace(" 0 3 * * *") != "" && !EnqueuedAsWritten(TrimSpace(" 0 3 * * *"), " 0 3 * * *")
  {
    LeadingSpaceNeverRuns(" 0 3 * * *", 1);
  }

  /** The lists RunListConfig enqueues, in `keys` order. */
  function Queued(keys: seq<string>, lists: map<string, CmdList>, cron: string): (r: seq<CmdList>)
    requires forall j :: 0 <= j < |keys| ==> keys[j] in lists
    ensures cron == "" ==> |r| == |keys|
  {
    if |keys| == 0 then []
    else
      var l := lists[keys[|keys| - 1]];
      Queued(keys[..|keys| - 1], lists, cron) + (if EnqueuedAsWritten(cron, l.cron) then [l] else [])
  }

  /** The lists the loop would enqueue with the trimmed comparison, in `keys` order. */
  function QueuedIntended(keys: seq<string>, lists: map<string, CmdList>, cron: string): (r: seq<CmdList>)
    requires forall j :: 0 <= j < |keys| ==> keys[j] in lists
    ensures cron == "" ==> |r| == |keys|
  {
    if |keys| == 0 then []
    else
      var l := lists[keys[|keys| - 1]];
      QueuedIntended(keys[..|keys| - 1], lists, cron) + (if Enqueued(cron, l.cron) then [l] else [])
  }

  /** With the trimmed comparison, every list whose trimmed schedule is the cron string is enqueued. */
  lemma {:induction false} QueuedIntendedComplete(keys: seq<string>, lists: map<string, CmdList>, cron: string, j: int)
    requires forall i :: 0 <= i < |keys| ==> keys[i] in lists
    requires 0 <= j < |keys| && Enqueued(cron, lists[keys[j]].cron)
    ensures lists[keys[j]] in QueuedIntended(keys, lists, cron)
  {
    if j < |keys| - 1 {
      QueuedIntendedComplete(keys[..|keys| - 1], lists, cron, j);
    }
  }

  /** Only lists whose schedule matches are enqueued. */
  lemma {:induction false} QueuedSound(keys: seq<string>, lists: map<string, CmdList>, cron: string)
    requires forall i :: 0 <= i < |keys| ==> keys[i] in lists
    ensures forall l :: l in Queued(keys, lists, cron) ==> EnqueuedAsWritten(cron, l.cron) && exists j :: 0 <= j < |keys| && lists[keys[j]] == l
  {
    if |keys| > 0 {
      QueuedSound(keys[..|keys| - 1], lists, cron);
      forall l | l in Queued(keys, lists, cron)
        ensures EnqueuedAsWritten(cron, l.cron) && exists j :: 0 <= j < |keys| && lists[keys[j]] == l
      {
        if l in Queued(keys[..|keys| - 1], lists, cron) {
          var j :| 0 <= j < |keys| - 1 && lists[keys[..|keys| - 1][j]] == l;
          assert lists[keys[j]] == l;
        } else {
          assert lists[keys[|keys| - 1]] == l;
        }
      }
    }
  }

  /** Every list whose schedule matches is enqueued. */
  lemma {:induction false} QueuedComplete(keys: seq<string>, lists: map<string, CmdList>, cron: string, j: int)
    requires forall i :: 0 <= i < |keys| ==> keys[i] in lists
    requires 0 <= j < |keys| && EnqueuedAsWritten(cron, lists[keys[j]].cron)
    ensures lists[keys[j]] in Queued(keys, lists, cron)
  {
    if j < |keys| - 1 {
      QueuedComplete(keys[..|keys| - 1], lists, cron, j);
    }
  }

  /** Every list of `keys` has a Name, unless its key is "" too. */
  predicate Named(lists: map<string, CmdList>, keys: seq<string>)
    reads lists.Values
  {
    forall j :: 0 <= j < |keys| && keys[j] in lists && lists[keys[j]].name == "" ==> keys[j] == ""
  }

  /** One turn of RunListConfig's loop: a blank Name takes the key, and the list is enqueued when its schedule matches. */
  method EnqueueList(l: CmdList, key: string, cron: string, queued0: seq<CmdList>) returns (queued: seq<CmdList>)
    modifies l
    ensures l.name == if old(l.name) == "" then key else old(l.name)
    ensures queued == queued0 + (if EnqueuedAsWritten(cron, l.cron) then [l] else [])
  {
    if l.name == "" {
      l.name := key;
    }
    queued := queued0;
    if cron == "" || cron == l.cron {
      queued := queued + [l];
    }
  }

  /**
   * The enqueue loop of RunListConfig: a list with a blank Name takes its
   * key, and a list is enqueued when the cron string is empty or its
   * schedule.
   */
  method RunListConfig(opts: ConfigOpts, keys: seq<string>, cron: string) returns (queued: seq<CmdList>)
    requires forall j :: 0 <= j < |keys| ==> keys[j] in opts.lists
    modifies opts.lists.Values
    ensures queued == Queued(keys, opts.lists, cron)
    ensures forall k :: k in opts.lists && old(opts.lists[k].name) != "" ==> opts.lists[k].name == old(opts.lists[k].name)
    ensures Named(opts.lists, keys)
  {
    ghost var orig := NamesOf(opts.lists);
    queued := [];
    var i := 0;
    while i < |keys|
      invariant 0 <= i <= |keys|
      invariant queued == Queued(keys[..i], opts.lists, cron)
      invariant KeepsNames(opts.lists, orig)
      invariant NamedUpTo(opts.lists, keys, i)
    {
      queued := EnqueueStep(opts, keys, cron, i, queued, orig);
      i := i + 1;
    }
    assert keys[..i] == keys;
  }

  /** The Name of every list. */
  function NamesOf(lists: map<string, CmdList>): (r: map<string, string>)
    reads lists.Values
    ensures r.Keys == lists.Keys && forall k :: k in lists ==> r[k] == lists[k].name
  {
    map k | k in lists :: lists[k].name
  }

  /** Every list whose Name was not blank still has it. */
  predicate KeepsNames(lists: map<string, CmdList>, orig: map<string, string>)
    reads lists.Values
  {
    forall k :: k in lists && k in orig && orig[k] != "" ==> lists[k].name == orig[k]
  }

  /** One turn of RunListConfig's loop, on the list of keys[i]. */
  method EnqueueStep(opts: ConfigOpts, keys: seq<string>, cron: string, i: nat, queued0: seq<CmdList>, ghost orig: map<string, string>)
    returns (queued: seq<CmdList>)
    requires i < |keys| && forall j :: 0 <= j < |keys| ==> keys[j] in opts.lists
    requires queued0 == Queued(keys[..i], opts.lists, cron)
    requires KeepsNames(opts.lists, orig) && NamedUpTo(opts.lists, keys, i)
    modifies opts.lists[keys[i]]
    ensures queued == Queued(keys[..i + 1], opts.lists, cron)
    ensures KeepsNames(opts.lists, orig) && NamedUpTo(opts.lists, keys, i + 1)
  {
    var listName := keys[i];
    var cmdConfig := opts.lists[listName];
    queued := EnqueueList(cmdConfig, listName, cron, queued0);
    assert NamedUpTo(opts.lists, keys, i + 1) by {
      forall j | 0 <= j < i + 1 && opts.lists[keys[j]].name == "" ensures keys[j] == "" {
        assert old(opts.lists[keys[j]].name) == "";
      }
    }
    QueuedSnoc(keys, opts.lists, cron, i);
  }

  predicate NamedUpTo(lists: map<string, CmdList>, keys: seq<string>, i: nat)
    reads lists.Values
  {
    forall j :: 0 <= j < i && j < |keys| && keys[j] in lists && lists[keys[j]].name == "" ==> keys[j] == ""
  }

  lemma QueuedSnoc(keys: seq<string>, lists: map<string, CmdList>, cron: string, i: nat)
    requires i < |keys| && forall j :: 0 <= j < |keys| ==> keys[j] in lists
    ensures Queued(keys[..i + 1], lists, cron) == Queued(keys[..i], lists, cron) + (if EnqueuedAsWritten(cron, lists[keys[i]].cron) then [lists[keys[i]]] else [])
  {
    assert keys[..i + 1][..i] == keys[..i];
  }

  /** The hosts ExecuteListOnHosts sends to the workers: every host that is not a proxy host, in `keys` order. */
  function HostQueue(keys: seq<string>, hosts: map<string, Ssh.Host>): (r: seq<Ssh.Host>)
    requires forall j :: 0 <= j < |keys| ==> keys[j] in hosts
    reads hosts.Values
    ensures forall h :: h in r ==> !h.isProxyHost && h in hosts.Values
  {
    if |keys| == 0 then []
    else
      var h := hosts[keys[|keys| - 1]];
      HostQueue(keys[..|keys| - 1], hosts) + (if h.isProxyHost then [] else [h])
  }

  /** A configured host that is not a proxy host is sent. */
  lemma {:induction false} HostQueueComplete(keys: seq<string>, hosts: map<string, Ssh.Host>, j: int)
    requires forall i :: 0 <= i < |keys| ==> keys[i] in hosts
    requires 0 <= j < |keys| && !hosts[keys[j]].isProxyHost
    ensures hosts[keys[j]] in HostQueue(keys, hosts)
  {
    if j < |keys| - 1 {
      HostQueueComplete(keys[..|keys| - 1], hosts, j);
    }
  }

  /**
   * The enqueue loops of ExecuteListOnHosts: every list, its blank Name set
   * to its key, and the hosts that are not proxy hosts.
   */
  method ExecuteListOnHosts(opts: ConfigOpts, listKeys: seq<string>, hostKeys: seq<string>)
    returns (lists: seq<CmdList>, hostQueue: seq<Ssh.Host>)
    requires forall j :: 0 <= j < |listKeys| ==> listKeys[j] in opts.lists
    requires forall j :: 0 <= j < |hostKeys| ==> hostKeys[j] in opts.hosts
    modifies opts.lists.Values
    ensures lists == Queued(listKeys, opts.lists, "")
    ensures hostQueue == HostQueue(hostKeys, opts.hosts)
    ensures Named(opts.lists, listKeys)
  {
    lists := RunListConfig(opts, listKeys, "");
    hostQueue := [];
    var i := 0;
    while i < |hostKeys|
      invariant 0 <= i <= |hostKeys|
      invariant hostQueue == HostQueue(hostKeys[..i], opts.hosts)
    {
      var h := opts.hosts[hostKeys[i]];
      if !h.isProxyHost {
        hostQueue := hostQueue + [h];
      }
      assert hostKeys[..i + 1][..i] == hostKeys[..i];
      i := i + 1;
    }
    assert hostKeys[..i] == hostKeys;
  }
}
