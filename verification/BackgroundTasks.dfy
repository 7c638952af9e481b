/**
 Background tasks: a user's cancel command races the runner that streams,
 decides a terminal status and finalizes under the task lock. The cancel command
 fires the task's token and sets the status as two steps under that lock.
 */
module BackgroundTasks {
  import opened Common
  import opened Text

  datatype TaskStatus = Running | Completed | Failed | Cancelled

  /** `cancelled` is the state of the task's cancellation token. */
  datatype Task = Task(
    id: string,
    status: TaskStatus,
    completedAt: Option<int>,
    output: string,
    cancelled: bool)

  predicate IsTerminal(status: TaskStatus) {
    status in {Completed, Failed, Cancelled}
  }

  // ---- The task table ----------------------------------------------------

  function FindTask(tasks: seq<Task>, id: string): (k: Option<nat>)
    ensures k.Some? ==> k.value < |tasks| && tasks[k.value].id == id && forall j :: 0 <= j < k.value ==> tasks[j].id != id
    ensures k.None? <==> forall j :: 0 <= j < |tasks| ==> tasks[j].id != id
  {
    if tasks == [] then None
    else if tasks[0].id == id then Some(0)
    else
      var rest := FindTask(tasks[1..], id);
      assert forall j :: 0 < j < |tasks| ==> tasks[j] == tasks[1..][j - 1];
      if rest.Some? then Some(rest.value + 1) else None
  }

  ghost predicate FirstTask(tasks: seq<Task>, id: string, k: int) {
    0 <= k < |tasks| && tasks[k].id == id && forall j :: 0 <= j < k ==> tasks[j].id != id
  }

  /** `finalize_background_task` takes effect on `id` only from a live status. */
  predicate Finalizes(tasks: seq<Task>, id: string) {
    var k := FindTask(tasks, id);
    k.Some? && !IsTerminal(tasks[k.value].status)
  }

  function FinalizedTasks(tasks: seq<Task>, id: string, status: TaskStatus, output: string, now: int): seq<Task> {
    if Finalizes(tasks, id)
    then
      var k := FindTask(tasks, id).value;
      tasks[k := tasks[k].(status := status, completedAt := Some(now), output := output)]
    else tasks
  }

  const CANCEL_OUTPUT := "Task cancelled by user"

  predicate Cancels(tasks: seq<Task>, id: string) {
    var k := FindTask(tasks, id);
    k.Some? && tasks[k.value].status.Running?
  }

  function CancelledTasks(tasks: seq<Task>, id: string, now: int): seq<Task> {
    if Cancels(tasks, id)
    then
      var k := FindTask(tasks, id).value;
      tasks[k := tasks[k].(cancelled := true, status := Cancelled, completedAt := Some(now), output := CANCEL_OUTPUT)]
    else tasks
  }

  datatype CancelError = NotRunning | NotFound

  class TaskTable {
    var tasks: seq<Task>

    method Position(id: string) returns (k: Option<nat>)
      ensures k == FindTask(tasks, id)
    {
      var i := 0;
      while i < |tasks|
        invariant 0 <= i <= |tasks|
        invariant forall j :: 0 <= j < i ==> tasks[j].id != id
      {
        if tasks[i].id == id {
          return Some(i);
        }
        i := i + 1;
      }
      k := None;
    }

    /** `finalize_background_task`. */
    method Finalize(id: string, status: TaskStatus, output: string, now: int) returns (transitioned: bool)
      requires IsTerminal(status)
      modifies this
      ensures transitioned == Finalizes(old(tasks), id)
      ensures transitioned <==> exists k :: FirstTask(old(tasks), id, k) && old(tasks)[k].status == Running
      ensures |tasks| == |old(tasks)|
      ensures forall k :: 0 <= k < |tasks| ==>
                tasks[k] == if transitioned && FirstTask(old(tasks), id, k)
                            then old(tasks)[k].(status := status, completedAt := Some(now), output := output) else old(tasks)[k]
      ensures tasks == FinalizedTasks(old(tasks), id, status, output, now)
    {
      var k := Position(id);
      if k.None? {
        return false;
      }
      var task := tasks[k.value];
      if task.status == Completed || task.status == Failed || task.status == Cancelled {
        return false;
      }
      task := task.(status := status);
      task := task.(completedAt := Some(now));
      task := task.(output := output);
      tasks := tasks[k.value := task];
      transitioned := true;
    }

    /** `cancel_background_task`, start to end under one lock. */
    method Cancel(id: string, now: int) returns (r: Result<bool, CancelError>)
      modifies this
      ensures r.Ok? <==> Cancels(old(tasks), id)
      ensures r.Ok? <==> exists k :: FirstTask(old(tasks), id, k) && old(tasks)[k].status == Running
      ensures r == Err(NotFound) <==> forall k :: 0 <= k < |old(tasks)| ==> old(tasks)[k].id != id
      ensures |tasks| == |old(tasks)|
      ensures forall k :: 0 <= k < |tasks| ==>
                tasks[k] == if r.Ok? && FirstTask(old(tasks), id, k)
                            then Task(id, Cancelled, Some(now), "Task cancelled by user", true) else old(tasks)[k]
      ensures r.Ok? ==> r.value
      ensures r == Err(NotFound) <==> FindTask(old(tasks), id).None?
      ensures tasks == CancelledTasks(old(tasks), id, now)
    {
      var k := Position(id);
      if k.None? {
        return Err(NotFound);
      }
      if tasks[k.value].status != Running {
        return Err(NotRunning);
      }
      tasks := tasks[k.value := tasks[k.value].(cancelled := true)];
      tasks := tasks[k.value := tasks[k.value].(status := Cancelled)];
      tasks := tasks[k.value := tasks[k.value].(completedAt := Some(now))];
      tasks := tasks[k.value := tasks[k.value].(output := CANCEL_OUTPUT)];
      r := Ok(true);
    }
  }

  // ---- The race ----------------------------------------------------------

  /** Where the spawned runner of a task is. */
  datatype Runner =
    | Streaming
    | StreamDone(output: string, error: Option<string>)
    | Decided(status: TaskStatus, output: string, error: Option<string>)
    | Reporting(status: TaskStatus, error: Option<string>)
    | Finished

  /**
   `holder` is the task whose token the cancel command has fired and whose status
   it has yet to set, all under the task lock. `updates` counts terminal
   `background_task_update` emits, `inbox` the cards in the triage inbox.
   */
  datatype System = System(
    tasks: seq<Task>,
    runners: seq<Runner>,
    holder: Option<nat>,
    updates: multiset<(string, TaskStatus)>,
    inbox: map<string, TaskStatus>)

  datatype Step =
    | Start(id: string)
    | StreamEnds(k: nat, output: string, error: Option<string>)
    | StreamCancelled(k: nat, output: string)
    | Decide(k: nat)
    | FinalizeStep(k: nat, now: int)
    | Report(k: nat, storeOk: bool)
    | CancelFire(id: string)
    | CancelSet(now: int)

  const EMPTY := System([], [], None, multiset{}, map[])

  predicate RunnerAt(s: System, k: nat) {
    k < |s.tasks| && k < |s.runners|
  }

  predicate Enabled(s: System, step: Step) {
    match step
    case Start(id) => s.holder.None? && forall j :: 0 <= j < |s.tasks| ==> s.tasks[j].id != id
    case StreamEnds(k, _, _) => RunnerAt(s, k) && s.runners[k].Streaming?
    case StreamCancelled(k, _) => RunnerAt(s, k) && s.runners[k].Streaming? && s.tasks[k].cancelled
    case Decide(k) => RunnerAt(s, k) && s.runners[k].StreamDone?
    case FinalizeStep(k, _) => RunnerAt(s, k) && s.runners[k].Decided? && s.holder.None?
    case Report(k, _) => RunnerAt(s, k) && s.runners[k].Reporting?
    case CancelFire(_) => s.holder.None?
    case CancelSet(_) => s.holder.Some? && s.holder.value < |s.tasks|
  }

  /** The terminal status the runner computes, reading the token once. */
  function TerminalStatus(cancelled: bool, error: Option<string>): TaskStatus {
    if cancelled then Cancelled else if error.Some? then Failed else Completed
  }

  /** `record_background_task_terminal` writes a card for a completed task and for a failed one with a non-blank error. */
  predicate WritesCard(status: TaskStatus, error: Option<string>) {
    match status
    case Completed => true
    case Failed => error.Some? && !IsBlank(error.value)
    case _ => false
  }

  function Next(s: System, step: Step): System
    requires Enabled(s, step)
  {
    match step
    case Start(id) =>
      s.(tasks := s.tasks + [Task(id, Running, None, "", false)], runners := s.runners + [Streaming])
    case StreamEnds(k, output, error) => s.(runners := s.runners[k := StreamDone(output, error)])
    case StreamCancelled(k, output) => s.(runners := s.runners[k := StreamDone(output, None)])
    case Decide(k) =>
      var r := s.runners[k];
      s.(runners := s.runners[k := Decided(TerminalStatus(s.tasks[k].cancelled, r.error), r.output, r.error)])
    case FinalizeStep(k, now) =>
      var r, id := s.runners[k], s.tasks[k].id;
      s.(tasks := FinalizedTasks(s.tasks, id, r.status, r.output, now),
         runners := s.runners[k := if Finalizes(s.tasks, id) then Reporting(r.status, r.error) else Finished])
    case Report(k, storeOk) =>
      var r, id := s.runners[k], s.tasks[k].id;
      s.(runners := s.runners[k := Finished],
         updates := s.updates + multiset{(id, r.status)},
         inbox := if WritesCard(r.status, r.error) && storeOk then s.inbox[id := r.status] else s.inbox)
    case CancelFire(id) =>
      if Cancels(s.tasks, id)
      then
        var k := FindTask(s.tasks, id).value;
        s.(tasks := s.tasks[k := s.tasks[k].(cancelled := true)], holder := Some(k))
      else s
    case CancelSet(now) =>
      var k := s.holder.value;
      s.(tasks := s.tasks[k := s.tasks[k].(status := Cancelled, completedAt := Some(now), output := CANCEL_OUTPUT)],
         holder := None,
         updates := s.updates + multiset{(s.tasks[k].id, Cancelled)})
  }

  ghost predicate IsRun(states: seq<System>, steps: seq<Step>) {
    && |states| == |steps| + 1
    && states[0] == EMPTY
    && forall k :: 0 <= k < |steps| ==> Enabled(states[k], steps[k]) && states[k + 1] == Next(states[k], steps[k])
  }

  /** With no step in between, the two halves of the cancel are the command of the task table. */
  lemma CancelHalvesCompose(s: System, id: string, now: int)
    requires s.holder.None?
    ensures
      var fired := Next(s, CancelFire(id));
      if Cancels(s.tasks, id)
      then Enabled(fired, CancelSet(now)) && Next(fired, CancelSet(now)).tasks == CancelledTasks(s.tasks, id, now)
      else fired == s
  {
  }

  // ---- Invariant ---------------------------------------------------------

  /** Updates emitted for a task so far: its cancel, or the runner's report. */
  function EmittedStatus(t: Task, r: Runner): Option<TaskStatus> {
    if t.status.Cancelled? then Some(Cancelled)
    else if r.Finished? then Some(t.status)
    else None
  }

  ghost predicate TaskInv(t: Task, r: Runner, held: bool) {
    && (t.completedAt.Some? <==> IsTerminal(t.status))
    && (if held then t.cancelled && t.status.Running? else t.cancelled <==> t.status.Cancelled?)
    && match r {
         case Streaming => t.status in {Running, Cancelled}
         case StreamDone(_, _) => t.status in {Running, Cancelled}
         case Decided(status, output, error) =>
           && t.status in {Running, Cancelled}
           && status == TerminalStatus(status.Cancelled?, error)
           && (status.Cancelled? ==> t.cancelled)
         case Reporting(status, _) => t.status == status && status in {Completed, Failed}
         case Finished => t.status in {Completed, Failed, Cancelled}
       }
  }

  ghost predicate Logged(s: System, k: nat)
    requires RunnerAt(s, k)
  {
    var t, r := s.tasks[k], s.runners[k];
    && (forall st :: s.updates[(t.id, st)] == if EmittedStatus(t, r) == Some(st) then 1 else 0)
    && (t.id in s.inbox ==> r.Finished? && t.status in {Completed, Failed} && s.inbox[t.id] == t.status)
  }

  function Ids(tasks: seq<Task>): set<string> {
    set k | 0 <= k < |tasks| :: tasks[k].id
  }

  ghost predicate DistinctIds(tasks: seq<Task>) {
    forall i, j :: 0 <= i < j < |tasks| ==> tasks[i].id != tasks[j].id
  }

  ghost predicate TasksInv(s: System) {
    && |s.runners| == |s.tasks|
    && DistinctIds(s.tasks)
    && (s.holder.Some? ==> s.holder.value < |s.tasks|)
    && (forall k :: 0 <= k < |s.tasks| ==> TaskInv(s.tasks[k], s.runners[k], s.holder == Some(k)))
  }

  ghost predicate LogInv(s: System) {
    && |s.runners| == |s.tasks|
    && (forall k :: 0 <= k < |s.tasks| ==> Logged(s, k))
    && (forall p :: p in s.updates ==> p.0 in Ids(s.tasks))
    && s.inbox.Keys <= Ids(s.tasks)
  }

  ghost predicate Inv(s: System) {
    TasksInv(s) && LogInv(s)
  }

  lemma FindIsUnique(tasks: seq<Task>, k: nat)
    requires k < |tasks| && DistinctIds(tasks)
    ensures FindTask(tasks, tasks[k].id) == Some(k)
  {
    hide FindTask;
    var f := FindTask(tasks, tasks[k].id);
    assert tasks[f.value].id == tasks[k].id;
  }

  /** `s'` differs from `s` at task `k` only, which keeps its id. */
  ghost predicate OnlyTask(s: System, s': System, k: nat) {
    && k < |s.tasks| == |s'.tasks| && |s.runners| == |s'.runners| == |s.tasks|
    && s'.tasks == s.tasks[k := s'.tasks[k]] && s'.runners == s.runners[k := s'.runners[k]]
    && s'.tasks[k].id == s.tasks[k].id
  }

  lemma OneTaskKeepsTasks(s: System, s': System, k: nat)
    requires TasksInv(s) && OnlyTask(s, s', k)
    requires s'.holder == s.holder || (s'.holder in {None, Some(k)} && s.holder in {None, Some(k)})
    requires TaskInv(s'.tasks[k], s'.runners[k], s'.holder == Some(k))
    ensures TasksInv(s')
  {
    forall j | 0 <= j < |s'.tasks| ensures TaskInv(s'.tasks[j], s'.runners[j], s'.holder == Some(j)) {
      if j != k {
        assert s'.tasks[j] == s.tasks[j] && s'.runners[j] == s.runners[j];
        assert TaskInv(s.tasks[j], s.runners[j], s.holder == Some(j));
      }
    }
    forall i, j | 0 <= i < j < |s'.tasks| ensures s'.tasks[i].id != s'.tasks[j].id {
      assert s'.tasks[i].id == s.tasks[i].id && s'.tasks[j].id == s.tasks[j].id;
    }
  }

  lemma SameIds(s: System, s': System, k: nat)
    requires OnlyTask(s, s', k)
    ensures Ids(s'.tasks) == Ids(s.tasks)
  {
    forall j | 0 <= j < |s.tasks| ensures s'.tasks[j].id == s.tasks[j].id {
      if j != k { assert s'.tasks[j] == s.tasks[j]; }
    }
  }

  /** The log entries of `k` follow its new state, those of other ids are as before. */
  lemma OneTaskKeepsLog(s: System, s': System, k: nat, emitted: multiset<(string, TaskStatus)>)
    requires TasksInv(s) && LogInv(s) && OnlyTask(s, s', k) && Logged(s', k)
    requires s'.updates == s.updates + emitted
    requires forall p :: p in emitted ==> p.0 == s.tasks[k].id
    requires s'.inbox == s.inbox || (s.tasks[k].id in s'.inbox && s'.inbox == s.inbox[s.tasks[k].id := s'.inbox[s.tasks[k].id]])
    ensures LogInv(s')
  {
    SameIds(s, s', k);
    assert s.tasks[k].id in Ids(s.tasks);
    forall j | 0 <= j < |s'.tasks| ensures Logged(s', j) {
      if j != k {
        assert s'.tasks[j] == s.tasks[j] && s'.runners[j] == s.runners[j] && Logged(s, j);
        assert s.tasks[j].id != s.tasks[k].id;
        forall st ensures s'.updates[(s.tasks[j].id, st)] == s.updates[(s.tasks[j].id, st)] {
          assert (s.tasks[j].id, st) !in emitted;
        }
      }
    }
  }

  lemma StartKeepsInv(s: System, id: string)
    requires Inv(s) && Enabled(s, Start(id))
    ensures Inv(Next(s, Start(id)))
  {
    var s' := Next(s, Start(id));
    var n := |s.tasks|;
    forall j | 0 <= j < |s'.tasks|
      ensures TaskInv(s'.tasks[j], s'.runners[j], s'.holder == Some(j)) && s'.tasks[j].id in Ids(s'.tasks)
    {
      if j < n { assert s'.tasks[j] == s.tasks[j] && s'.runners[j] == s.runners[j]; }
    }
    forall x | x in Ids(s.tasks) ensures x in Ids(s'.tasks) {
      var j :| 0 <= j < n && s.tasks[j].id == x;
      assert s'.tasks[j].id == x;
    }
    assert id !in Ids(s.tasks);
    forall j | 0 <= j < |s'.tasks| ensures Logged(s', j) {
      if j < n {
        assert s'.tasks[j] == s.tasks[j] && s'.runners[j] == s.runners[j] && Logged(s, j);
      } else {
        forall st ensures s'.updates[(id, st)] == 0 { assert (id, st) !in s.updates; }
      }
    }
  }

  lemma RunnerStepKeepsInv(s: System, step: Step)
    requires Inv(s) && Enabled(s, step)
    requires step.StreamEnds? || step.StreamCancelled? || step.Decide?
    ensures Inv(Next(s, step))
  {
    var s', k := Next(s, step), step.k;
    assert TaskInv(s.tasks[k], s.runners[k], s.holder == Some(k)) && Logged(s, k);
    OneTaskKeepsTasks(s, s', k);
    OneTaskKeepsLog(s, s', k, multiset{});
  }

  lemma FinalizeKeepsInv(s: System, k: nat, now: int)
    requires Inv(s) && Enabled(s, FinalizeStep(k, now))
    ensures Inv(Next(s, FinalizeStep(k, now)))
  {
    var s' := Next(s, FinalizeStep(k, now));
    assert TaskInv(s.tasks[k], s.runners[k], s.holder == Some(k)) && Logged(s, k);
    FindIsUnique(s.tasks, k);
    OneTaskKeepsTasks(s, s', k);
    OneTaskKeepsLog(s, s', k, multiset{});
  }

  lemma ReportKeepsInv(s: System, k: nat, storeOk: bool)
    requires Inv(s) && Enabled(s, Report(k, storeOk))
    ensures Inv(Next(s, Report(k, storeOk)))
  {
    var s' := Next(s, Report(k, storeOk));
    assert TaskInv(s.tasks[k], s.runners[k], s.holder == Some(k)) && Logged(s, k);
    OneTaskKeepsTasks(s, s', k);
    OneTaskKeepsLog(s, s', k, multiset{(s.tasks[k].id, s.runners[k].status)});
  }

  lemma CancelKeepsInv(s: System, step: Step)
    requires Inv(s) && Enabled(s, step) && (step.CancelFire? || step.CancelSet?)
    ensures Inv(Next(s, step))
  {
    var s' := Next(s, step);
    if step.CancelSet? || Cancels(s.tasks, step.id) {
      var k := if step.CancelSet? then s.holder.value else FindTask(s.tasks, step.id).value;
      assert TaskInv(s.tasks[k], s.runners[k], s.holder == Some(k)) && Logged(s, k);
      OneTaskKeepsTasks(s, s', k);
      OneTaskKeepsLog(s, s', k, if step.CancelSet? then multiset{(s.tasks[k].id, Cancelled)} else multiset{});
    }
  }

  lemma StepKeepsInv(s: System, step: Step)
    requires Inv(s) && Enabled(s, step)
    ensures Inv(Next(s, step))
  {
    match step
    case Start(id) => StartKeepsInv(s, id);
    case StreamEnds(_, _, _) => RunnerStepKeepsInv(s, step);
    case StreamCancelled(_, _) => RunnerStepKeepsInv(s, step);
    case Decide(_) => RunnerStepKeepsInv(s, step);
    case FinalizeStep(k, now) => FinalizeKeepsInv(s, k, now);
    case Report(k, storeOk) => ReportKeepsInv(s, k, storeOk);
    case CancelFire(_) => CancelKeepsInv(s, step);
    case CancelSet(_) => CancelKeepsInv(s, step);
  }

  lemma {:induction false} RunKeepsInv(states: seq<System>, steps: seq<Step>, k: nat)
    requires IsRun(states, steps) && k < |states|
    ensures Inv(states[k])
  {
    if k > 0 {
      RunKeepsInv(states, steps, k - 1);
      StepKeepsInv(states[k - 1], steps[k - 1]);
    } else {
      assert Ids(EMPTY.tasks) == {};
    }
  }

  // ---- What every run guarantees ------------------------------------------

  /** Whenever the task lock is free: token cancelled iff status `cancelled`; `completed_at` set iff terminal. */
  lemma TokenMatchesStatus(states: seq<System>, steps: seq<Step>, n: nat, k: nat)
    requires IsRun(states, steps) && n < |states| && k < |states[n].tasks|
    ensures states[n].holder.None? ==> (states[n].tasks[k].cancelled <==> states[n].tasks[k].status.Cancelled?)
    ensures states[n].tasks[k].completedAt.Some? <==> IsTerminal(states[n].tasks[k].status)
  {
    RunKeepsInv(states, steps, n);
    var s := states[n];
    assert TaskInv(s.tasks[k], s.runners[k], s.holder == Some(k));
  }

  lemma TerminalTaskStep(s: System, step: Step, k: nat)
    requires Inv(s) && Enabled(s, step) && k < |s.tasks| && IsTerminal(s.tasks[k].status)
    ensures k < |Next(s, step).tasks| && Next(s, step).tasks[k] == s.tasks[k]
  {
    assert TaskInv(s.tasks[k], s.runners[k], s.holder == Some(k));
    if step.FinalizeStep? {
      FindIsUnique(s.tasks, step.k);
    }
  }

  /** A terminal task never changes again: status, completion time and output stand, whoever comes second. */
  lemma {:induction false} TerminalTaskFrozen(states: seq<System>, steps: seq<Step>, m: nat, n: nat, k: nat)
    requires IsRun(states, steps) && m <= n < |states|
    requires k < |states[m].tasks| && IsTerminal(states[m].tasks[k].status)
    ensures k < |states[n].tasks| && states[n].tasks[k] == states[m].tasks[k]
    decreases n
  {
    hide Inv, Next;
    if m < n {
      TerminalTaskFrozen(states, steps, m, n - 1, k);
      RunKeepsInv(states, steps, n - 1);
      TerminalTaskStep(states[n - 1], steps[n - 1], k);
    }
  }

  /**
   Terminal updates: a live task has emitted none; a cancelled one exactly one
   `cancelled`; a completed or failed one exactly one of its own status once its
   runner has reported, and none before.
   */
  lemma OneTerminalUpdate(states: seq<System>, steps: seq<Step>, n: nat, k: nat, st: TaskStatus)
    requires IsRun(states, steps) && n < |states| && k < |states[n].tasks|
    ensures
      var s := states[n];
      var t := s.tasks[k];
      && |s.runners| == |s.tasks|
      && s.updates[(t.id, st)] <= 1
      && (s.updates[(t.id, st)] == 1 ==> t.status == st && st != Running)
      && (t.status.Cancelled? ==> s.updates[(t.id, Cancelled)] == 1)
      && (t.status in {Completed, Failed} ==> (s.updates[(t.id, t.status)] == 1 <==> s.runners[k].Finished?))
  {
    RunKeepsInv(states, steps, n);
    var s := states[n];
    assert TaskInv(s.tasks[k], s.runners[k], s.holder == Some(k)) && Logged(s, k);
  }

  /** A runner that has come to rest leaves a terminal task: nothing finishes silently. */
  lemma FinishedIsReported(states: seq<System>, steps: seq<Step>, n: nat, k: nat)
    requires IsRun(states, steps) && n < |states| && k < |states[n].tasks| && k < |states[n].runners|
    requires states[n].runners[k].Finished?
    ensures IsTerminal(states[n].tasks[k].status)
    ensures states[n].updates[(states[n].tasks[k].id, states[n].tasks[k].status)] == 1
  {
    RunKeepsInv(states, steps, n);
    var s := states[n];
    assert TaskInv(s.tasks[k], s.runners[k], s.holder == Some(k)) && Logged(s, k);
  }

  /** A task cancelled at any moment never gets an inbox card, before or after; a card always tells the task's own status. */
  lemma CancelledHasNoCard(states: seq<System>, steps: seq<Step>, m: nat, n: nat, k: nat)
    requires IsRun(states, steps) && m <= n < |states|
    requires k < |states[m].tasks| && states[m].tasks[k].status.Cancelled?
    ensures states[m].tasks[k].id !in states[n].inbox
  {
    TerminalTaskFrozen(states, steps, m, n, k);
    RunKeepsInv(states, steps, n);
    assert Logged(states[n], k);
  }

  /**
   The way of a task nobody cancels: from any state with the lock free it starts,
   streams, decides, is written and reported; it ends as its stream did, and only
   its own entries are new.
   */
  lemma TaskGoesThrough(s: System, id: string, output: string, error: Option<string>, now: int, storeOk: bool)
    requires Inv(s) && Enabled(s, Start(id)) && s.holder.None?
    ensures
      var k := |s.tasks|;
      var status := if error == None then Completed else Failed;
      var s1 := Next(s, Start(id));
      && Enabled(s1, StreamEnds(k, output, error)) && var s2 := Next(s1, StreamEnds(k, output, error));
      && Enabled(s2, Decide(k)) && var s3 := Next(s2, Decide(k));
      && Enabled(s3, FinalizeStep(k, now)) && var s4 := Next(s3, FinalizeStep(k, now));
      && Enabled(s4, Report(k, storeOk)) && var s5 := Next(s4, Report(k, storeOk));
      && s5.tasks == s.tasks + [Task(id, status, Some(now), output, false)]
      && s5.runners == s.runners + [Finished] && s5.updates == s.updates + multiset{(id, status)}
  {
    var k := |s.tasks|;
    var s1 := Next(s, Start(id));
    StartKeepsInv(s, id);
    StreamGoesThrough(s1, k, output, error);
    var s3 := Next(Next(s1, StreamEnds(k, output, error)), Decide(k));
    FindIsUnique(s1.tasks, k);
    assert s3.tasks == s1.tasks && FindTask(s3.tasks, s3.tasks[k].id) == Some(k);
    DecidedGoesThrough(s3, k, if error == None then Completed else Failed, output, error, now, storeOk);
    LastReplaced(s.tasks, s1.tasks[k], Task(id, if error == None then Completed else Failed, Some(now), output, false));
    LastReplaced(s.runners, Streaming, Finished);
    assert s1.tasks == s.tasks + [s1.tasks[k]] && s1.runners == s.runners + [Streaming];
    assert s3.runners[k := Finished] == s1.runners[k := Finished];
    hide Inv, Enabled, Next, FindTask;
  }

  lemma LastReplaced<T>(s: seq<T>, before: T, after: T)
    ensures (s + [before])[|s| := after] == s + [after]
  {
  }

  lemma StreamGoesThrough(s: System, k: nat, output: string, error: Option<string>)
    requires RunnerAt(s, k) && s.runners[k].Streaming? && !s.tasks[k].cancelled
    ensures
      && Enabled(s, StreamEnds(k, output, error)) && var s1 := Next(s, StreamEnds(k, output, error));
      && Enabled(s1, Decide(k))
      && Next(s1, Decide(k)) == s.(runners := s.runners[k := Decided(if error == None then Completed else Failed, output, error)])
  {
  }

  lemma DecidedGoesThrough(s: System, k: nat, status: TaskStatus, output: string, error: Option<string>, now: int, storeOk: bool)
    requires RunnerAt(s, k) && s.holder.None? && s.runners[k] == Decided(status, output, error) && s.tasks[k].status == Running
    requires FindTask(s.tasks, s.tasks[k].id) == Some(k)
    ensures
      && Enabled(s, FinalizeStep(k, now)) && var s1 := Next(s, FinalizeStep(k, now));
      && Enabled(s1, Report(k, storeOk)) && var s2 := Next(s1, Report(k, storeOk));
      && s2.tasks == s.tasks[k := s.tasks[k].(status := status, completedAt := Some(now), output := output)]
      && s2.runners == s.runners[k := Finished] && s2.updates == s.updates + multiset{(s.tasks[k].id, status)}
  {
    assert s.runners[k := Reporting(status, error)][k := Finished] == s.runners[k := Finished];
  }

  /** The runner of a cancelled task can stop streaming and come to rest; it writes nothing and reports nothing. */
  lemma CancelledRunnerRests(s: System, k: nat, output: string, now: int)
    requires Inv(s) && s.holder.None? && k < |s.tasks| && s.tasks[k].status == Cancelled && s.runners[k].Streaming?
    ensures
      && Enabled(s, StreamCancelled(k, output)) && var s1 := Next(s, StreamCancelled(k, output));
      && Enabled(s1, Decide(k)) && var s2 := Next(s1, Decide(k));
      && Enabled(s2, FinalizeStep(k, now)) && Next(s2, FinalizeStep(k, now)) == s.(runners := s.runners[k := Finished])
  {
    assert TaskInv(s.tasks[k], s.runners[k], s.holder == Some(k));
    FindIsUnique(s.tasks, k);
    var s1 := Next(s, StreamCancelled(k, output));
    var s2 := Next(s1, Decide(k));
    assert s2.runners == s.runners[k := Decided(Cancelled, output, None)];
    hide LogInv, Logged, TaskInv;
  }

  /** A running task can be cancelled whenever the lock is free. */
  lemma RunningCanBeCancelled(s: System, k: nat, now: int)
    requires Inv(s) && s.holder.None? && k < |s.tasks| && s.tasks[k].status == Running
    ensures
      && Enabled(s, CancelFire(s.tasks[k].id)) && var fired := Next(s, CancelFire(s.tasks[k].id));
      && Enabled(fired, CancelSet(now))
      && Next(fired, CancelSet(now)).tasks == s.tasks[k := Task(s.tasks[k].id, Cancelled, Some(now), "Task cancelled by user", true)]
      && Next(fired, CancelSet(now)).updates == s.updates + multiset{(s.tasks[k].id, Cancelled)}
  {
    FindIsUnique(s.tasks, k);
    hide Inv, LogInv, FindTask;
  }

  // ---- How a task ends, read off the steps ------------------------------------

  /** Before step `n` the stream of task `k` ended with this output and error. */
  ghost predicate Streamed(steps: seq<Step>, n: nat, k: nat, output: string, error: Option<string>)
    requires n <= |steps|
  {
    exists j :: 0 <= j < n && steps[j] == StreamEnds(k, output, error)
  }

  ghost predicate EndedWith(status: TaskStatus, error: Option<string>) {
    status == (match error case Some(_) => Failed case None => Completed)
  }

  /** What the runner holds, and what a finished task shows, is what the stream ended with. */
  ghost predicate Traced(s: System, steps: seq<Step>, n: nat, k: nat)
    requires n <= |steps| && RunnerAt(s, k)
  {
    match s.runners[k]
    case Streaming => true
    case StreamDone(output, error) => s.tasks[k].cancelled || Streamed(steps, n, k, output, error)
    case Decided(status, output, error) => status == Cancelled || (Streamed(steps, n, k, output, error) && EndedWith(status, error))
    case Reporting(status, error) =>
      s.tasks[k].status == status && Streamed(steps, n, k, s.tasks[k].output, error) && EndedWith(status, error)
    case Finished =>
      s.tasks[k].status == Cancelled
      || exists error :: Streamed(steps, n, k, s.tasks[k].output, error) && EndedWith(s.tasks[k].status, error)
  }

  lemma StreamedGrows(steps: seq<Step>, n: nat, k: nat)
    requires n < |steps|
    ensures forall output, error :: Streamed(steps, n, k, output, error) ==> Streamed(steps, n + 1, k, output, error)
    ensures steps[n].StreamEnds? && steps[n].k == k ==> Streamed(steps, n + 1, k, steps[n].output, steps[n].error)
  {
  }

  lemma StepKeepsTraced(s: System, steps: seq<Step>, n: nat, k: nat)
    requires n < |steps| && Inv(s) && Enabled(s, steps[n]) && k < |Next(s, steps[n]).tasks|
    requires k < |s.tasks| ==> Traced(s, steps, n, k)
    ensures RunnerAt(Next(s, steps[n]), k) && Traced(Next(s, steps[n]), steps, n + 1, k)
  {
    var step, s' := steps[n], Next(s, steps[n]);
    StreamedGrows(steps, n, k);
    if k < |s.tasks| {
      assert TaskInv(s.tasks[k], s.runners[k], s.holder == Some(k));
      if step.FinalizeStep? { FindIsUnique(s.tasks, step.k); }
      TaskMoves(s, step, k);
      hide Next, Inv, TaskInv, Enabled, Streamed, DistinctIds;
      if s'.runners[k].Finished? && s.runners[k].Finished? && s.tasks[k].status != Cancelled {
        var error :| Streamed(steps, n, k, s.tasks[k].output, error) && EndedWith(s.tasks[k].status, error);
        assert Streamed(steps, n + 1, k, s'.tasks[k].output, error);
      }
    }
  }

  /** What a step can do to a task and its runner. */
  lemma TaskMoves(s: System, step: Step, k: nat)
    requires Inv(s) && Enabled(s, step) && k < |s.tasks|
    ensures
      var s' := Next(s, step);
      var t, r := s.tasks[k], s.runners[k];
      && RunnerAt(s', k)
      && var t', r' := s'.tasks[k], s'.runners[k];
         && (t.cancelled ==> t'.cancelled)
         && (r' != r ==> match r {
               case Streaming =>
                 (step.StreamEnds? && step.k == k && r' == StreamDone(step.output, step.error)) || (r'.StreamDone? && t'.cancelled)
               case StreamDone(output, error) => r'.Decided? && r' == Decided(r'.status, output, error) && (if t.cancelled then r'.status == Cancelled else EndedWith(r'.status, error))
               case Decided(status, output, error) =>
                 (r'.Finished? && t'.status == Cancelled)
                 || (r' == Reporting(status, error) && status != Cancelled && t'.status == status && t'.output == output)
               case Reporting(status, error) => r' == Finished && t' == t
               case Finished => false
             })
         && (r' == r && (r.Reporting? || r.Finished?) ==> t'.status == t.status && t'.output == t.output)
  {
    assert TaskInv(s.tasks[k], s.runners[k], s.holder == Some(k));
    if step.FinalizeStep? {
      FindIsUnique(s.tasks, step.k);
    } else if step.CancelFire? && Cancels(s.tasks, step.id) {
      assert TaskInv(s.tasks[k], s.runners[k], s.holder == Some(k));
    }
    hide LogInv;
  }

  lemma {:induction false} RunIsTraced(states: seq<System>, steps: seq<Step>, n: nat, k: nat)
    requires IsRun(states, steps) && n < |states| && k < |states[n].tasks|
    ensures RunnerAt(states[n], k) && Traced(states[n], steps, n, k)
  {
    if n > 0 {
      RunKeepsInv(states, steps, n - 1);
      if k < |states[n - 1].tasks| { RunIsTraced(states, steps, n - 1, k); }
      StepKeepsTraced(states[n - 1], steps, n - 1, k);
    }
  }

  /** A task that was not cancelled fails exactly if its stream ended with an error, and shows that stream's output. */
  lemma EndsAsStreamed(states: seq<System>, steps: seq<Step>, n: nat, k: nat) returns (j: nat)
    requires IsRun(states, steps) && n < |states| && k < |states[n].tasks|
    requires states[n].tasks[k].status != Running && states[n].tasks[k].status != Cancelled
    ensures j < n && steps[j].StreamEnds? && steps[j].k == k
    ensures states[n].tasks[k].output == steps[j].output
    ensures states[n].tasks[k].status == Failed <==> steps[j].error.Some?
    ensures states[n].tasks[k].status == Completed <==> steps[j].error.None?
  {
    RunIsTraced(states, steps, n, k);
    RunKeepsInv(states, steps, n);
    var s := states[n];
    assert TaskInv(s.tasks[k], s.runners[k], s.holder == Some(k));
    var error: Option<string>;
    if s.runners[k].Reporting? {
      error := s.runners[k].error;
    } else {
      error :| Streamed(steps, n, k, s.tasks[k].output, error) && EndedWith(s.tasks[k].status, error);
    }
    j :| 0 <= j < n && steps[j] == StreamEnds(k, s.tasks[k].output, error);
  }

  lemma LeftStreamStep(s: System, step: Step, k: nat)
    requires Enabled(s, step) && RunnerAt(s, k)
    ensures RunnerAt(Next(s, step), k)
    ensures !s.runners[k].Streaming? || (step.StreamEnds? && step.k == k) ==> !Next(s, step).runners[k].Streaming?
  {
  }

  lemma {:induction false} StreamEndsOnce(states: seq<System>, steps: seq<Step>, i: nat, j: nat, k: nat)
    requires IsRun(states, steps) && i < j <= |steps| && steps[i].StreamEnds? && steps[i].k == k
    ensures RunnerAt(states[j], k) && !states[j].runners[k].Streaming?
    ensures j < |steps| ==> !(steps[j].StreamEnds? && steps[j].k == k)
    decreases j
  {
    hide Next;
    assert Enabled(states[j - 1], steps[j - 1]);
    if i + 1 < j { StreamEndsOnce(states, steps, i, j - 1, k); }
    LeftStreamStep(states[j - 1], steps[j - 1], k);
    if j < |steps| { assert Enabled(states[j], steps[j]); }
  }

  /** One step of the inbox: a reported stream without error, or with one that is not blank, when the store answers. */
  lemma CardStep(s: System, step: Step, k: nat)
    requires Inv(s) && Enabled(s, step) && k < |Next(s, step).tasks|
    ensures Next(s, step).tasks[k].id in Next(s, step).inbox <==>
              k < |s.tasks| &&
              (s.tasks[k].id in s.inbox
               || (step == Report(k, true) && (s.runners[k].status == Completed || (s.runners[k].error.Some? && !IsBlank(s.runners[k].error.value)))))
  {
    var s' := Next(s, step);
    if k < |s.tasks| {
      assert TaskInv(s.tasks[k], s.runners[k], s.holder == Some(k));
      if step.FinalizeStep? { FindIsUnique(s.tasks, step.k); }
      assert s'.tasks[k].id == s.tasks[k].id;
      if step.Report? && step.k != k { assert s.tasks[step.k].id != s.tasks[k].id; }
    } else {
      assert step.Start? && step.id !in Ids(s.tasks);
    }
  }

  /** Task `k`'s stream ended without an error, or with one that is not blank, and was then reported to a store that answered. */
  ghost predicate CardDue(steps: seq<Step>, n: nat, k: nat)
    requires n <= |steps|
  {
    exists j, m ::
      && 0 <= j < m < n && steps[j].StreamEnds? && steps[j].k == k && steps[m] == Report(k, true)
      && (steps[j].error == None || exists i :: 0 <= i < |steps[j].error.value| && !IsSpace(steps[j].error.value[i]))
  }

  /** The inbox has a card for a task exactly when one is due; the card shows the task's own status. */
  lemma {:induction false} CardIff(states: seq<System>, steps: seq<Step>, n: nat, k: nat)
    requires IsRun(states, steps) && n < |states| && k < |states[n].tasks|
    ensures states[n].tasks[k].id in states[n].inbox <==> CardDue(steps, n, k)
    ensures states[n].tasks[k].id in states[n].inbox ==> states[n].inbox[states[n].tasks[k].id] == states[n].tasks[k].status
    decreases n
  {
    RunKeepsInv(states, steps, n);
    assert Logged(states[n], k);
    if n > 0 {
      var s, step := states[n - 1], steps[n - 1];
      RunKeepsInv(states, steps, n - 1);
      CardStep(s, step, k);
      if k < |s.tasks| {
        CardIff(states, steps, n - 1, k);
        NewCard(states, steps, n - 1, k);
      } else {
        NothingBeforeStart(states, steps, n - 1, k);
      }
    }
  }

  lemma NewCard(states: seq<System>, steps: seq<Step>, n: nat, k: nat)
    requires IsRun(states, steps) && n < |steps| && k < |states[n].tasks| && RunnerAt(states[n], k)
    ensures CardDue(steps, n + 1, k) <==>
              CardDue(steps, n, k)
              || (steps[n] == Report(k, true)
                  && (states[n].runners[k].status == Completed
                      || (states[n].runners[k].error.Some? && !IsBlank(states[n].runners[k].error.value))))
  {
    if steps[n] == Report(k, true) {
      var s := states[n];
      assert Enabled(s, steps[n]);
      RunIsTraced(states, steps, n, k);
      var error := s.runners[k].error;
      var j :| 0 <= j < n && steps[j] == StreamEnds(k, s.tasks[k].output, error);
      forall i | 0 <= i < n && steps[i].StreamEnds? && steps[i].k == k
        ensures i == j
      {
        if i < j { StreamEndsOnce(states, steps, i, j, k); }
        if j < i { StreamEndsOnce(states, steps, j, i, k); }
      }
      assert j < n < n + 1 && steps[j].StreamEnds? && steps[j].k == k;
    }
  }

  lemma {:induction false} NothingBeforeStart(states: seq<System>, steps: seq<Step>, n: nat, k: nat)
    requires IsRun(states, steps) && n < |states| && k >= |states[n].tasks|
    ensures forall j :: 0 <= j < n ==> !(steps[j].StreamEnds? && steps[j].k == k)
  {
    if n > 0 {
      assert Enabled(states[n - 1], steps[n - 1]);
      StepsTouchOldTasks(states[n - 1], steps[n - 1]);
      hide Next, Enabled;
      NothingBeforeStart(states, steps, n - 1, k);
    }
  }

  lemma StepsTouchOldTasks(s: System, step: Step)
    requires Enabled(s, step)
    ensures |Next(s, step).tasks| >= |s.tasks|
    ensures step.StreamEnds? ==> step.k < |s.tasks|
  {
  }

  /** When and with what text a terminal task ended: at its runner's write, or at a cancel. */
  ghost predicate Stamped(t: Task, steps: seq<Step>, n: nat, k: nat)
    requires n <= |steps|
  {
    match t.status
    case Running => t.output == ""
    case Cancelled =>
      t.output == "Task cancelled by user" && exists m :: 0 <= m < n && steps[m].CancelSet? && t.completedAt == Some(steps[m].now)
    case _ => exists m :: 0 <= m < n && steps[m].FinalizeStep? && steps[m].k == k && t.completedAt == Some(steps[m].now)
  }

  lemma StampStays(t: Task, t': Task, steps: seq<Step>, n: nat, k: nat)
    requires n < |steps| && Stamped(t, steps, n, k)
    requires t'.status == t.status && t'.completedAt == t.completedAt && t'.output == t.output
    ensures Stamped(t', steps, n + 1, k)
  {
  }

  /** A step leaves a task's stamp alone, or is the one that sets it. */
  lemma StampMoves(s: System, step: Step, k: nat)
    requires Inv(s) && Enabled(s, step) && k < |s.tasks|
    ensures k < |Next(s, step).tasks|
    ensures
      var t, t' := s.tasks[k], Next(s, step).tasks[k];
      || (t'.status == t.status && t'.completedAt == t.completedAt && t'.output == t.output)
      || (step.FinalizeStep? && step.k == k && t'.status in {Completed, Failed} && t'.completedAt == Some(step.now))
      || (step.CancelSet? && t'.status == Cancelled && t'.completedAt == Some(step.now) && t'.output == "Task cancelled by user")
  {
    assert TaskInv(s.tasks[k], s.runners[k], s.holder == Some(k));
    if step.FinalizeStep? {
      assert TaskInv(s.tasks[step.k], s.runners[step.k], s.holder == Some(step.k));
      FindIsUnique(s.tasks, step.k);
    }
    hide Inv, TasksInv, LogInv;
  }

  lemma StepKeepsStamped(s: System, steps: seq<Step>, n: nat, k: nat)
    requires n < |steps| && Inv(s) && Enabled(s, steps[n]) && k < |Next(s, steps[n]).tasks|
    requires k < |s.tasks| ==> Stamped(s.tasks[k], steps, n, k)
    ensures Stamped(Next(s, steps[n]).tasks[k], steps, n + 1, k)
  {
    if k >= |s.tasks| {
      NewTaskIsRunning(s, steps[n], k);
    } else {
      StampMoves(s, steps[n], k);
      var t, t' := s.tasks[k], Next(s, steps[n]).tasks[k];
      if t'.status == t.status && t'.completedAt == t.completedAt && t'.output == t.output { StampStays(t, t', steps, n, k); }
    }
    hide Next, Enabled, Inv;
  }

  lemma NewTaskIsRunning(s: System, step: Step, k: nat)
    requires Enabled(s, step) && |s.tasks| <= k < |Next(s, step).tasks|
    ensures Next(s, step).tasks[k].status == Running && Next(s, step).tasks[k].output == ""
  {
  }

  lemma {:induction false} EndsWhenStamped(states: seq<System>, steps: seq<Step>, n: nat, k: nat)
    requires IsRun(states, steps) && n < |states| && k < |states[n].tasks|
    ensures Stamped(states[n].tasks[k], steps, n, k)
  {
    if n > 0 {
      RunKeepsInv(states, steps, n - 1);
      if k < |states[n - 1].tasks| { EndsWhenStamped(states, steps, n - 1, k); }
      StepKeepsStamped(states[n - 1], steps, n - 1, k);
    }
  }
}
