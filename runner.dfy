/** The runner: how one command is dispatched to the executor, how a task's
    commands are run one after another on a host, and what `Run` checks
    before it fans out to the hosts. The connector and the executors are
    oracles: functions from what is asked of them to an outcome. */
module Runner {
  import opened Wrappers
  import opened Text
  import opened Config
  import opened Script
  import opened Templates
  import opened Playbook

  /** What the runner asks an executor to do. `Poll` is the whole `wait`
      ticker loop for one command: it succeeds once a check succeeds and
      fails when the timeout fires or the context ends. */
  datatype Op =
    | RunScript(command: string)
    | Upload(src: string, dst: string, mkdir: bool)
    | SyncDir(src: string, dst: string, delete: bool)
    | Remove(location: string, recursive: bool)
    | Poll(command: string, timeout: Duration, interval: Duration)

  /** One request to an executor: the host whose session (or, for a local
      command, the local executor) receives it and the index of the
      command in its task. */
  datatype Call = Call(host: string, index: nat, local: bool, op: Op)

  datatype Outcome = Success | Failure(error: string)

  /** The connector: the remote user it logs in as, whether connecting to a
      host succeeds, and what every executor request returns. */
  datatype Connector = Connector(user: string, connect: string -> Outcome, exec: Call -> Outcome)

  /** The details a command reports next to its name, before formatting. */
  datatype Details =
    | NoDetails
    | ScriptDetails(command: string)
    | CopyDetails(src: string, dst: string)
    | SyncDetails(src: string, dst: string)
    | DeleteDetails(location: string, recursive: bool)
    | WaitDetails(command: string, timeout: Duration, checkDuration: Duration)

  /** The branch `execCommand` takes. */
  datatype Kind = ScriptKind | CopyKind | SyncKind | DeleteKind | WaitKind | UnknownKind

  const Millisecond: Duration := 1_000_000

  /** The first branch whose fields are filled in: a script, a copy with both
      ends, a sync with both ends, a delete location, a wait command. */
  function KindOf(cmd: Cmd): (k: Kind)
    ensures k == ScriptKind <==> cmd.script != ""
    ensures k == CopyKind <==> cmd.script == "" && cmd.copy.source != "" && cmd.copy.dest != ""
    ensures k == UnknownKind <==>
              cmd.script == "" && (cmd.copy.source == "" || cmd.copy.dest == "") &&
              (cmd.sync.source == "" || cmd.sync.dest == "") && cmd.delete.location == "" && cmd.wait.command == ""
    ensures k == SyncKind <==>
              cmd.script == "" && (cmd.copy.source == "" || cmd.copy.dest == "") &&
              cmd.sync.source != "" && cmd.sync.dest != ""
    ensures k == DeleteKind <==>
              cmd.script == "" && (cmd.copy.source == "" || cmd.copy.dest == "") &&
              (cmd.sync.source == "" || cmd.sync.dest == "") && cmd.delete.location != ""
    ensures k == WaitKind <==>
              cmd.script == "" && (cmd.copy.source == "" || cmd.copy.dest == "") &&
              (cmd.sync.source == "" || cmd.sync.dest == "") && cmd.delete.location == "" && cmd.wait.command != ""
  {
    if cmd.script != "" then ScriptKind
    else if cmd.copy.source != "" && cmd.copy.dest != "" then CopyKind
    else if cmd.sync.source != "" && cmd.sync.dest != "" then SyncKind
    else if cmd.delete.location != "" then DeleteKind
    else if cmd.wait.command != "" then WaitKind
    else UnknownKind
  }

  /** `time.Duration.Truncate`: `d - d % m` with Go's remainder, which takes
      the sign of `d`, so it rounds toward zero to a multiple of `m`; a
      non-positive `m` leaves the duration alone. */
  function Truncate(d: Duration, m: Duration): (r: Duration)
    ensures m <= 0 ==> r == d
    ensures m > 0 ==> r % m == 0
    ensures m > 0 && 0 <= d ==> 0 <= r <= d < r + m
    ensures m > 0 && d < 0 ==> r - m < d <= r <= 0
  {
    if m <= 0 then d
    else if d >= 0 then
      RoundDown(d, m);
      d - d % m
    else
      RoundUp(d, m);
      -((-d) - (-d) % m)
  }

  lemma RoundUp(d: int, m: int)
    requires m > 0 && d < 0
    ensures var r := -((-d) - (-d) % m); r % m == 0 && r - m < d <= r <= 0
  {
    RoundDown(-d, m);
    MultipleMod(-((-d) / m), m);
    assert (-d) - (-d) % m == ((-d) / m) * m;
  }

  lemma MultipleMod(q: int, m: int)
    requires m > 0
    ensures (q * m) % m == 0
  {
    var x := q * m;
    assert x == m * (x / m) + x % m;
    var k := q - x / m;
    assert x % m == m * k;
    if k > 0 {
      assert false;
    } else if k < 0 {
      assert false;
    }
  }

  lemma RoundDown(d: int, m: int)
    requires m > 0 && d >= 0
    ensures (d - d % m) % m == 0
    ensures 0 <= d - d % m <= d < d - d % m + m
  {
    MultipleMod(d / m, m);
    assert d - d % m == (d / m) * m;
  }

  /** The interval between checks: the command's own, or five seconds when
      it gives none. */
  function CheckInterval(checkDuration: Duration): (r: Duration)
    ensures checkDuration == 0 ==> r == 5 * Second
    ensures checkDuration != 0 ==> r == checkDuration
    ensures checkDuration >= 0 ==> r > 0
  {
    if checkDuration == 0 then 5 * Second else checkDuration
  }

  /** `wait`: with no timeout it succeeds at once and nothing is run;
      otherwise the polling loop decides. */
  function Wait(conn: Connector, host: string, index: nat, local: bool, command: string, timeout: Duration, checkDuration: Duration): (r: Outcome)
    ensures timeout == 0 ==> r == Success
    ensures timeout != 0 ==> r == conn.exec(Call(host, index, local, Poll(command, timeout, CheckInterval(checkDuration))))
  {
    if timeout == 0 then Success
    else conn.exec(Call(host, index, local, Poll(command, timeout, CheckInterval(checkDuration))))
  }

  /** The command string a script command hands to the executor: the
      one-line form that `GetScript` returns. */
  ghost function ScriptText(cmd: Cmd): string {
    if cmd.script == "" || '\n' in cmd.script then "" else CommandForm(EnvList(cmd.environment), cmd.script)
  }

  /** Templates filled in as `execCommand` fills them: the host, the command's
      name, the connector's user, the task's name and no error. */
  function Fill(s: string, cmd: Cmd, host: string, taskName: string, user: string): string {
    ApplyTemplates(s, host, cmd.name, user, taskName, None)
  }

  /** An executor outcome as `execCommand` reports it: nothing on success,
      else the error wrapped with what failed and where. */
  function Wrap(what: string, host: string, o: Outcome): (r: Option<string>)
    ensures r.None? <==> o.Success?
    ensures o.Failure? ==> r == Some(what + host + ": " + o.error)
  {
    if o.Success? then None else Some(what + host + ": " + o.error)
  }

  /** What `execCommand` returns for command `cmd`, number `index` of task
      `taskName`, on `host`: the details of the branch it took and the
      error, if any. */
  ghost function ExecSpec(cmd: Cmd, index: nat, host: string, taskName: string, conn: Connector): (Details, Option<string>) {
    var local := cmd.options.local;
    match KindOf(cmd)
    case ScriptKind =>
      var c := Fill(ScriptText(cmd), cmd, host, taskName, conn.user);
      (ScriptDetails(c), Wrap("can't run script on ", host, conn.exec(Call(host, index, local, RunScript(c)))))
    case CopyKind =>
      var src := Fill(cmd.copy.source, cmd, host, taskName, conn.user);
      var dst := Fill(cmd.copy.dest, cmd, host, taskName, conn.user);
      (CopyDetails(src, dst), Wrap("can't copy file on ", host, conn.exec(Call(host, index, local, Upload(src, dst, cmd.copy.mkdir)))))
    case SyncKind =>
      var src := Fill(cmd.sync.source, cmd, host, taskName, conn.user);
      var dst := Fill(cmd.sync.dest, cmd, host, taskName, conn.user);
      (SyncDetails(src, dst), Wrap("can't sync files on ", host, conn.exec(Call(host, index, local, SyncDir(src, dst, cmd.sync.delete)))))
    case DeleteKind =>
      var loc := Fill(cmd.delete.location, cmd, host, taskName, conn.user);
      (DeleteDetails(loc, cmd.delete.recursive),
       Wrap("can't delete files on ", host, conn.exec(Call(host, index, local, Remove(loc, cmd.delete.recursive)))))
    case WaitKind =>
      var c := Fill(cmd.wait.command, cmd, host, taskName, conn.user);
      var w := cmd.wait;
      (WaitDetails(c, Truncate(w.timeout, 100 * Millisecond), Truncate(w.checkDuration, 100 * Millisecond)),
       Wrap("wait failed on ", host, Wait(conn, host, index, local, c, w.timeout, w.checkDuration)))
    case UnknownKind =>
      (NoDetails, Some("unknown command \"" + cmd.name + "\""))
  }

  /** `execCommand`. */
  method ExecCommand(cmd: Cmd, index: nat, host: string, taskName: string, conn: Connector) returns (details: Details, err: Option<string>)
    ensures (details, err) == ExecSpec(cmd, index, host, taskName, conn)
  {
    var local := cmd.options.local;
    if cmd.script != "" {
      var command, _ := GetScript(cmd);
      var c := ApplyTemplates(command, host, cmd.name, conn.user, taskName, None);
      details := ScriptDetails(c);
      err := Wrap("can't run script on ", host, conn.exec(Call(host, index, local, RunScript(c))));
    } else if cmd.copy.source != "" && cmd.copy.dest != "" {
      var src := ApplyTemplates(cmd.copy.source, host, cmd.name, conn.user, taskName, None);
      var dst := ApplyTemplates(cmd.copy.dest, host, cmd.name, conn.user, taskName, None);
      details := CopyDetails(src, dst);
      err := Wrap("can't copy file on ", host, conn.exec(Call(host, index, local, Upload(src, dst, cmd.copy.mkdir))));
    } else if cmd.sync.source != "" && cmd.sync.dest != "" {
      var src := ApplyTemplates(cmd.sync.source, host, cmd.name, conn.user, taskName, None);
      var dst := ApplyTemplates(cmd.sync.dest, host, cmd.name, conn.user, taskName, None);
      details := SyncDetails(src, dst);
      err := Wrap("can't sync files on ", host, conn.exec(Call(host, index, local, SyncDir(src, dst, cmd.sync.delete))));
    } else if cmd.delete.location != "" {
      var loc := ApplyTemplates(cmd.delete.location, host, cmd.name, conn.user, taskName, None);
      details := DeleteDetails(loc, cmd.delete.recursive);
      err := Wrap("can't delete files on ", host, conn.exec(Call(host, index, local, Remove(loc, cmd.delete.recursive))));
    } else if cmd.wait.command != "" {
      var c := ApplyTemplates(cmd.wait.command, host, cmd.name, conn.user, taskName, None);
      var w := cmd.wait;
      details := WaitDetails(c, Truncate(w.timeout, 100 * Millisecond), Truncate(w.checkDuration, 100 * Millisecond));
      err := Wrap("wait failed on ", host, Wait(conn, host, index, local, c, w.timeout, w.checkDuration));
    } else {
      details := NoDetails;
      err := Some("unknown command \"" + cmd.name + "\"");
    }
  }

  /** The details do not depend on the executor: a failing command reports
      the same details as a succeeding one. */
  lemma DetailsIgnoreOutcome(cmd: Cmd, index: nat, host: string, taskName: string, conn: Connector, other: Connector)
    requires conn.user == other.user
    ensures ExecSpec(cmd, index, host, taskName, conn).0 == ExecSpec(cmd, index, host, taskName, other).0
    ensures KindOf(cmd) != UnknownKind ==> ExecSpec(cmd, index, host, taskName, conn).0 != NoDetails
  {
  }

  /** A command of no known kind fails without reaching any executor, and
      reports no details. */
  lemma UnknownCommand(cmd: Cmd, index: nat, host: string, taskName: string, conn: Connector)
    requires cmd.script == "" && (cmd.copy.source == "" || cmd.copy.dest == "")
    requires cmd.sync.source == "" || cmd.sync.dest == ""
    requires cmd.delete.location == "" && cmd.wait.command == ""
    ensures ExecSpec(cmd, index, host, taskName, conn) == (NoDetails, Some("unknown command \"" + cmd.name + "\""))
  {
  }

  /** A script shadows every other kind: changing the copy, sync, delete or
      wait parts of a command with a script changes nothing. */
  lemma ScriptShadowsOthers(cmd: Cmd, copy: CopySpec, sync: SyncSpec, delete: DeleteSpec, wait: WaitSpec,
                            index: nat, host: string, taskName: string, conn: Connector)
    requires cmd.script != ""
    ensures ExecSpec(cmd, index, host, taskName, conn) ==
            ExecSpec(cmd.(copy := copy, sync := sync, delete := delete, wait := wait), index, host, taskName, conn)
  {
  }

  /** A wait without a timeout succeeds whatever its check would do, and a
      wait without an interval polls every five seconds. */
  lemma WaitRules(cmd: Cmd, index: nat, host: string, taskName: string, conn: Connector)
    requires KindOf(cmd) == WaitKind
    ensures cmd.wait.timeout == 0 ==> ExecSpec(cmd, index, host, taskName, conn).1 == None
    ensures cmd.wait.timeout != 0 && cmd.wait.checkDuration == 0 ==>
              var c := Fill(cmd.wait.command, cmd, host, taskName, conn.user);
              var o := conn.exec(Call(host, index, cmd.options.local, Poll(c, cmd.wait.timeout, 5 * Second)));
              ExecSpec(cmd, index, host, taskName, conn).1 == Wrap("wait failed on ", host, o)
  {
  }

  // ---------------------------------------------------------------------
  // Selecting commands

  /** The `contains` closure: some entry of `list` equals `s` up to case. */
  function ContainsFold(list: seq<string>, s: string): (r: bool)
    ensures r <==> exists i :: 0 <= i < |list| && EqualFold(list[i], s)
  {
    if list == [] then false
    else EqualFold(list[0], s) || ContainsFold(list[1..], s)
  }

  /** Whether the per-host loop passes over `cmd`: not in a non-empty Only
      list, in the Skip list, or marked NoAuto and not in the Only list. */
  predicate Skipped(only: seq<string>, skip: seq<string>, cmd: Cmd) {
    || (|only| > 0 && !ContainsFold(only, cmd.name))
    || (|skip| > 0 && ContainsFold(skip, cmd.name))
    || (cmd.options.noAuto && (|only| == 0 || !ContainsFold(only, cmd.name)))
  }

  /** The three rules in one: a command runs exactly when Skip does not name
      it and, if there is an Only list or the command is NoAuto, Only names
      it. */
  lemma SkippedRule(only: seq<string>, skip: seq<string>, cmd: Cmd)
    ensures Skipped(only, skip, cmd) <==>
              ContainsFold(skip, cmd.name) || ((|only| > 0 || cmd.options.noAuto) && !ContainsFold(only, cmd.name))
  {
  }

  lemma EqualFoldSymmetric(a: string, b: string)
    requires EqualFold(a, b)
    ensures EqualFold(b, a)
  {
  }

  lemma EqualFoldTransitive(a: string, b: string, c: string)
    requires EqualFold(a, b) && EqualFold(b, c)
    ensures EqualFold(a, c)
  {
  }

  /** Names are matched without regard to ASCII case. */
  lemma ContainsFoldCase(list: seq<string>, a: string, b: string)
    requires EqualFold(a, b)
    ensures ContainsFold(list, a) <==> ContainsFold(list, b)
  {
    if ContainsFold(list, a) {
      var i :| 0 <= i < |list| && EqualFold(list[i], a);
      EqualFoldTransitive(list[i], a, b);
    }
    if ContainsFold(list, b) {
      var i :| 0 <= i < |list| && EqualFold(list[i], b);
      EqualFoldSymmetric(a, b);
      EqualFoldTransitive(list[i], b, a);
    }
  }

  /** Two commands whose names differ only in case are selected alike. */
  lemma SkippedIgnoresCase(only: seq<string>, skip: seq<string>, cmd: Cmd, name: string)
    requires EqualFold(cmd.name, name)
    ensures Skipped(only, skip, cmd) <==> Skipped(only, skip, cmd.(name := name))
  {
    ContainsFoldCase(only, cmd.name, name);
    ContainsFoldCase(skip, cmd.name, name);
  }

  // ---------------------------------------------------------------------
  // The per-host loop

  /** The indices in `[i, j)` of the commands the filters let through, in
      order. */
  function Eligible(only: seq<string>, skip: seq<string>, cmds: seq<Cmd>, i: nat, j: nat): seq<nat>
    requires j <= |cmds|
    decreases j
  {
    if j <= i then []
    else Eligible(only, skip, cmds, i, j - 1) + (if Skipped(only, skip, cmds[j - 1]) then [] else [j - 1])
  }

  lemma {:induction false} EligibleMembers(only: seq<string>, skip: seq<string>, cmds: seq<Cmd>, i: nat, j: nat)
    requires j <= |cmds|
    ensures var e := Eligible(only, skip, cmds, i, j);
            (forall a, b :: 0 <= a < b < |e| ==> e[a] < e[b]) &&
            (forall k: int :: k in e <==> i <= k < j && !Skipped(only, skip, cmds[k]))
    decreases j
  {
    if j > i {
      EligibleMembers(only, skip, cmds, i, j - 1);
      var e := Eligible(only, skip, cmds, i, j - 1);
      var e' := Eligible(only, skip, cmds, i, j);
      forall a, b | 0 <= a < b < |e'| ensures e'[a] < e'[b] {
        if b == |e| {
          assert e'[a] == e[a] && e[a] in e;
        }
      }
    }
  }

  /** The error each command of `task` ends with when it is run on `host`,
      `None` when it succeeds. */
  ghost function Errors(task: Task, host: string, conn: Connector): (es: seq<Option<string>>)
    ensures |es| == |task.commands|
    ensures forall k :: 0 <= k < |es| ==> es[k] == ExecSpec(task.commands[k], k, host, task.name, conn).1
  {
    seq(|task.commands|, k requires 0 <= k < |task.commands| => ExecSpec(task.commands[k], k, host, task.name, conn).1)
  }

  /** Whether command `k` is run, fails and does not ignore errors. */
  predicate Fatal(only: seq<string>, skip: seq<string>, cmds: seq<Cmd>, errs: seq<Option<string>>, k: nat)
    requires k < |cmds| == |errs|
  {
    !Skipped(only, skip, cmds[k]) && errs[k].Some? && !cmds[k].options.ignoreErrors
  }

  /** The first fatal command at or after `i`, or the number of commands. */
  function FirstFatal(only: seq<string>, skip: seq<string>, cmds: seq<Cmd>, errs: seq<Option<string>>, i: nat): (f: nat)
    requires i <= |cmds| == |errs|
    ensures i <= f <= |cmds|
    ensures forall k :: i <= k < f ==> !Fatal(only, skip, cmds, errs, k)
    ensures f < |cmds| ==> Fatal(only, skip, cmds, errs, f)
    decreases |cmds| - i
  {
    if i == |cmds| then i
    else if Fatal(only, skip, cmds, errs, i) then i
    else FirstFatal(only, skip, cmds, errs, i + 1)
  }

  /** How many commands in `[i, j)` are run and succeed. */
  function Succeeded(only: seq<string>, skip: seq<string>, cmds: seq<Cmd>, errs: seq<Option<string>>, i: nat, j: nat): (n: nat)
    requires j <= |cmds| == |errs|
    ensures i <= j ==> n <= j - i
    decreases j
  {
    if j <= i then 0
    else
      Succeeded(only, skip, cmds, errs, i, j - 1) +
      (if !Skipped(only, skip, cmds[j - 1]) && errs[j - 1].None? then 1 else 0)
  }

  /** The error a fatal command `k` ends the host with. */
  function FatalError(cmds: seq<Cmd>, errs: seq<Option<string>>, k: nat, host: string): string
    requires k < |cmds| == |errs|
  {
    "can't run command \"" + cmds[k].name + "\" on host " + host + ": " + (if errs[k].Some? then errs[k].value else "")
  }

  /** The loop of `runTaskOnHost` from command `i` on, with `count`
      commands completed so far. */
  function RunFrom(only: seq<string>, skip: seq<string>, cmds: seq<Cmd>, errs: seq<Option<string>>, host: string, i: nat, count: nat): (nat, Option<string>)
    requires i <= |cmds| == |errs|
    decreases |cmds| - i
  {
    if i == |cmds| then (count, None)
    else if Skipped(only, skip, cmds[i]) then RunFrom(only, skip, cmds, errs, host, i + 1, count)
    else if errs[i].None? then RunFrom(only, skip, cmds, errs, host, i + 1, count + 1)
    else if !cmds[i].options.ignoreErrors then (count, Some(FatalError(cmds, errs, i, host)))
    else RunFrom(only, skip, cmds, errs, host, i + 1, count)
  }

  /** What `runTaskOnHost` returns: the number of completed commands and the
      error that ended the host, if any. */
  ghost function HostSpec(only: seq<string>, skip: seq<string>, task: Task, host: string, conn: Connector): (nat, Option<string>) {
    match conn.connect(host)
    case Failure(e) => (0, Some("can't connect to " + host + ": " + e))
    case Success => RunFrom(only, skip, task.commands, Errors(task, host, conn), host, 0, 0)
  }

  /** The commands `runTaskOnHost` hands to an executor, in order. */
  ghost function Executed(only: seq<string>, skip: seq<string>, task: Task, host: string, conn: Connector): seq<nat> {
    if conn.connect(host).Failure? then []
    else
      var f := FirstFatal(only, skip, task.commands, Errors(task, host, conn), 0);
      Eligible(only, skip, task.commands, 0, if f < |task.commands| then f + 1 else f)
  }

  /** `runTaskOnHost`, with the indices of the commands it executes. */
  method RunTaskOnHost(only: seq<string>, skip: seq<string>, task: Task, host: string, conn: Connector)
    returns (count: nat, err: Option<string>, ghost ran: seq<nat>)
    ensures (count, err) == HostSpec(only, skip, task, host, conn)
    ensures ran == Executed(only, skip, task, host, conn)
  {
    var c := conn.connect(host);
    if c.Failure? {
      return 0, Some("can't connect to " + host + ": " + c.error), [];
    }
    ghost var errs := Errors(task, host, conn);
    var cmds := task.commands;
    count, ran := 0, [];
    var i := 0;
    while i < |cmds|
      invariant 0 <= i <= |cmds|
      invariant RunFrom(only, skip, cmds, errs, host, i, count) == RunFrom(only, skip, cmds, errs, host, 0, 0)
      invariant FirstFatal(only, skip, cmds, errs, i) == FirstFatal(only, skip, cmds, errs, 0)
      invariant ran == Eligible(only, skip, cmds, 0, i)
    {
      var cmd := cmds[i];
      if Skipped(only, skip, cmd) {
        i := i + 1;
        continue;
      }
      var _, e := ExecCommand(cmd, i, host, task.name, conn);
      assert e == errs[i];
      ran := ran + [i];
      if e.Some? {
        if !cmd.options.ignoreErrors {
          return count, Some("can't run command \"" + cmd.name + "\" on host " + host + ": " + e.value), ran;
        }
      } else {
        count := count + 1;
      }
      i := i + 1;
    }
    err := None;
  }

  /** The loop from `i` on, described without stepping through it: it stops
      at the first fatal command and counts the commands before it that ran
      and succeeded. */
  lemma {:induction false} RunFromReference(only: seq<string>, skip: seq<string>, cmds: seq<Cmd>, errs: seq<Option<string>>, host: string, i: nat, count: nat)
    requires i <= |cmds| == |errs|
    ensures var f := FirstFatal(only, skip, cmds, errs, i);
            RunFrom(only, skip, cmds, errs, host, i, count) ==
            (count + Succeeded(only, skip, cmds, errs, i, f), if f == |cmds| then None else Some(FatalError(cmds, errs, f, host)))
    decreases |cmds| - i
  {
    if i < |cmds| && !Fatal(only, skip, cmds, errs, i) {
      var inc := if !Skipped(only, skip, cmds[i]) && errs[i].None? then 1 else 0;
      RunFromStep(only, skip, cmds, errs, host, i, count);
      RunFromReference(only, skip, cmds, errs, host, i + 1, count + inc);
      SucceededFront(only, skip, cmds, errs, i, FirstFatal(only, skip, cmds, errs, i));
    }
  }

  /** One command that does not end the host: the loop moves on, counting it
      if it succeeded, and the first fatal command is still ahead. */
  lemma RunFromStep(only: seq<string>, skip: seq<string>, cmds: seq<Cmd>, errs: seq<Option<string>>, host: string, i: nat, count: nat)
    requires i < |cmds| == |errs| && !Fatal(only, skip, cmds, errs, i)
    ensures var inc := if !Skipped(only, skip, cmds[i]) && errs[i].None? then 1 else 0;
            RunFrom(only, skip, cmds, errs, host, i, count) == RunFrom(only, skip, cmds, errs, host, i + 1, count + inc)
    ensures FirstFatal(only, skip, cmds, errs, i) == FirstFatal(only, skip, cmds, errs, i + 1)
  {
  }

  /** Counting successes from the front: `Succeeded` is built from the back. */
  lemma {:induction false} SucceededFront(only: seq<string>, skip: seq<string>, cmds: seq<Cmd>, errs: seq<Option<string>>, i: nat, j: nat)
    requires i < j <= |cmds| == |errs|
    ensures Succeeded(only, skip, cmds, errs, i, j) ==
            (if !Skipped(only, skip, cmds[i]) && errs[i].None? then 1 else 0) + Succeeded(only, skip, cmds, errs, i + 1, j)
    decreases j
  {
    if j > i + 1 {
      SucceededFront(only, skip, cmds, errs, i, j - 1);
    }
  }

  /** What the per-host loop promises: a failed connection runs nothing;
      otherwise the count is the number of commands that ran and succeeded
      before the first fatal failure (never more than the task has), and
      the host ends with an error exactly when there is such a failure. */
  lemma HostOutcome(only: seq<string>, skip: seq<string>, task: Task, host: string, conn: Connector)
    ensures conn.connect(host).Failure? ==>
              HostSpec(only, skip, task, host, conn) == (0, Some("can't connect to " + host + ": " + conn.connect(host).error)) &&
              Executed(only, skip, task, host, conn) == []
    ensures conn.connect(host).Success? ==>
              var errs := Errors(task, host, conn);
              var f := FirstFatal(only, skip, task.commands, errs, 0);
              var (count, err) := HostSpec(only, skip, task, host, conn);
              count == Succeeded(only, skip, task.commands, errs, 0, f) &&
              count <= |task.commands| &&
              (err.None? <==> f == |task.commands|) &&
              (f < |task.commands| ==> err == Some(FatalError(task.commands, errs, f, host)))
  {
    if conn.connect(host).Success? {
      RunFromReference(only, skip, task.commands, Errors(task, host, conn), host, 0, 0);
    }
  }

  /** The executed commands come in declared order, are exactly the ones the
      filters let through up to the first fatal one, and include it. */
  lemma ExecutedOrder(only: seq<string>, skip: seq<string>, task: Task, host: string, conn: Connector)
    requires conn.connect(host).Success?
    ensures var ran := Executed(only, skip, task, host, conn);
            var f := FirstFatal(only, skip, task.commands, Errors(task, host, conn), 0);
            (forall a, b :: 0 <= a < b < |ran| ==> ran[a] < ran[b]) &&
            (forall k: int :: k in ran <==> 0 <= k <= f && k < |task.commands| && !Skipped(only, skip, task.commands[k]))
  {
    var f := FirstFatal(only, skip, task.commands, Errors(task, host, conn), 0);
    EligibleMembers(only, skip, task.commands, 0, if f < |task.commands| then f + 1 else f);
  }

  // ---------------------------------------------------------------------
  // Run

  datatype ProcStats = ProcStats(commands: nat, hosts: nat)

  /** How `Run` gets past its checks: it gives up with zero statistics and an
      error, or goes on to run the resolved task on the resolved hosts. */
  datatype RunStart = Aborted(stats: ProcStats, error: string) | Launched(task: Task, hosts: seq<Destination>)

  function StartSpec(p: PlayBook, taskName: string, target: string, src: Sources): RunStart {
    match TaskSpec(p, taskName)
    case Err(e) => Aborted(ProcStats(0, 0), "can't get task " + taskName + ": " + e)
    case Ok(t) =>
      match TargetSpec(p, target, src)
      case Err(e) => Aborted(ProcStats(0, 0), "can't get target " + target + ": " + e)
      case Ok(hs) => Launched(t, hs)
  }

  /** The part of `Run` before the hosts are started. */
  method Run(p: PlayBook, taskName: string, target: string, src: Sources) returns (r: RunStart)
    ensures r == StartSpec(p, taskName, target, src)
  {
    var t := ResolveTask(p, taskName);
    if t.Err? {
      return Aborted(ProcStats(0, 0), "can't get task " + taskName + ": " + t.error);
    }
    var hs := TargetHosts(p, target, src);
    if hs.Err? {
      return Aborted(ProcStats(0, 0), "can't get target " + target + ": " + hs.error);
    }
    r := Launched(t.value, hs.value);
  }

  /** `Run` stops before any host with zero statistics exactly when the task
      or the target cannot be resolved, the task being checked first; it
      otherwise goes on with the resolved task and hosts. */
  lemma RunEarlyExit(p: PlayBook, taskName: string, target: string, src: Sources)
    ensures StartSpec(p, taskName, target, src).Aborted? <==>
              taskName !in p.tasks || TargetSpec(p, target, src).Err?
    ensures StartSpec(p, taskName, target, src).Aborted? ==> StartSpec(p, taskName, target, src).stats == ProcStats(0, 0)
    ensures taskName !in p.tasks ==>
              StartSpec(p, taskName, target, src).error == "can't get task " + taskName + ": task " + taskName + " not found"
    ensures StartSpec(p, taskName, target, src).Launched? ==>
              Ok(StartSpec(p, taskName, target, src).task) == TaskSpec(p, taskName) &&
              Ok(StartSpec(p, taskName, target, src).hosts) == TargetSpec(p, target, src)
  {
  }
}
