/**
 The life of all best-of-N batches of one installation as a transition system:
 start, the four-permit queue, live spend, engine outcomes, the terminal write,
 adopt, discard, lazy loading, listing, and a crash followed by a restart.
 Branch steps of different batches and branches interleave freely.

 Grain: the locked write of `finalize_branch` (with its inbox append and its
 persist), adopt, discard, `get_or_load` and `list` are one step each. Writes to
 disk succeed. Batch ids are fresh.
 */
module BatchProtocol {
  import opened Common
  import opened BatchRecord

  const MAX_CONCURRENT_BATCH_BRANCHES: nat := 4

  // ---- State -------------------------------------------------------------

  /** One spawned branch task. A permit is held exactly while `Executing`. */
  datatype Task =
    | Queued
    | Executing
    | Observed(obs: Observation)
    | Finalized(obs: Observation, summary: Option<DiffSummary>)

  /** How far `start_batch_run_inner` got for a batch in this process. */
  datatype Runner =
    | NoRunner
    | Registered
    | Persisted
    | Spawned(tasks: seq<Task>)

  /** `mem` is the registry's record (absent until loaded), `disk` its JSON mirror. */
  datatype BatchState = BatchState(mem: Option<BatchRun>, disk: Option<BatchRun>, runner: Runner)

  /** `attempts` is history: the batches whose completion item was attempted, with multiplicity. */
  datatype System = System(
    batches: map<string, BatchState>,
    permits: int,
    inbox: seq<InboxItem>,
    attempts: multiset<string>)

  datatype Merge = Merged | Conflicts | GitError

  datatype Step =
    | Register(record: BatchRun)
    | FirstPersist(id: string)
    | Spawn(id: string)
    | AcquirePermit(id: string, i: nat)
    | QueueError(id: string, i: nat, message: string)
    | FoldSpend(id: string, i: nat, cost: real)
    | EngineEnds(id: string, i: nat, obs: Observation)
    | FinalizeBranch(id: string, i: nat, summary: Option<DiffSummary>, appendOk: bool)
    | Adopt(id: string, index: nat, merge: Merge)
    | Discard(id: string, removed: nat, skipped: nat)
    | GetOrLoad(id: string)
    | List
    | Restart

  function Init(): System {
    System(map[], MAX_CONCURRENT_BATCH_BRANCHES, [], multiset{})
  }

  // ---- Steps -------------------------------------------------------------

  /** The record `start_batch_run_inner` builds; the source allows 2 to 4 branches, any positive number will do. */
  predicate FreshRecord(r: BatchRun) {
    && 0 < |r.branches| == r.count
    && r.status == Running
    && r.adoptedIndex == None
    && r.inboxItem == None
    && forall i :: 0 <= i < |r.branches| ==>
         && r.branches[i].index == i
         && r.branches[i].status == BranchRunning
         && r.branches[i].error == None
         && r.branches[i].summary == None
         && r.branches[i].spent == 0.0
         && r.branches[i].verification == None
  }

  predicate LiveTask(s: System, id: string, i: nat) {
    && id in s.batches
    && s.batches[id].mem.Some?
    && s.batches[id].runner.Spawned?
    && i < |s.batches[id].runner.tasks|
  }

  function TaskAt(s: System, id: string, i: nat): Task
    requires LiveTask(s, id, i)
  {
    s.batches[id].runner.tasks[i]
  }

  predicate Enabled(s: System, step: Step) {
    match step
    case Register(r) => r.batchId !in s.batches && FreshRecord(r)
    case FirstPersist(id) => id in s.batches && s.batches[id].runner.Registered? && s.batches[id].mem.Some?
    case Spawn(id) => id in s.batches && s.batches[id].runner.Persisted? && s.batches[id].mem.Some?
    case AcquirePermit(id, i) => LiveTask(s, id, i) && TaskAt(s, id, i).Queued? && s.permits > 0
    case QueueError(id, i, _) => LiveTask(s, id, i) && TaskAt(s, id, i).Queued?
    case FoldSpend(id, i, _) => LiveTask(s, id, i) && TaskAt(s, id, i).Executing?
    case EngineEnds(id, i, _) => LiveTask(s, id, i) && TaskAt(s, id, i).Executing?
    case FinalizeBranch(id, i, _, _) => LiveTask(s, id, i) && TaskAt(s, id, i).Observed?
    case Adopt(_, _, _) => true
    case Discard(_, _, _) => true
    case GetOrLoad(_) => true
    case List => true
    case Restart => true
  }

  function WithTask(s: System, id: string, i: nat, t: Task): System
    requires LiveTask(s, id, i)
  {
    var b := s.batches[id];
    s.(batches := s.batches[id := b.(runner := Spawned(b.runner.tasks[i := t]))])
  }

  /** `get_or_load` on one batch: a record only on disk is reconciled and registered, not written back. */
  function Loaded(b: BatchState): BatchState {
    if b.mem.None? && b.disk.Some? then b.(mem := Some(Reconciled(b.disk.value))) else b
  }

  /** `list` on one batch: as `Loaded`, but the reconciled record is written back. */
  function Listed(b: BatchState): BatchState {
    if b.mem.None? && b.disk.Some?
    then b.(mem := Some(Reconciled(b.disk.value)), disk := Some(Reconciled(b.disk.value)))
    else b
  }

  function Persist(b: BatchState, r: BatchRun): BatchState {
    b.(mem := Some(r), disk := Some(r))
  }

  /** A crash and a fresh process: only the disk survives. */
  function Crashed(b: BatchState): BatchState {
    BatchState(None, b.disk, NoRunner)
  }

  function FinalizeNext(s: System, id: string, i: nat, summary: Option<DiffSummary>, appendOk: bool): System
    requires LiveTask(s, id, i) && TaskAt(s, id, i).Observed?
  {
    var b := s.batches[id];
    var obs := TaskAt(s, id, i).obs;
    var write := FinalizeWrite(b.mem.value, s.inbox, i, obs, summary, appendOk);
    System(
      s.batches[id := Persist(b, write.record).(runner := Spawned(b.runner.tasks[i := Finalized(obs, summary)]))],
      s.permits,
      write.inbox,
      if write.attempted then s.attempts + multiset{id} else s.attempts)
  }

  function AdoptNext(s: System, id: string, index: nat, merge: Merge): System {
    if id !in s.batches || Loaded(s.batches[id]).mem.None? then s
    else
      var b := Loaded(s.batches[id]);
      var r := b.mem.value;
      var check := AdoptCheck(r, index);
      if check.Err? || !merge.Merged? then s.(batches := s.batches[id := b])
      else s.(batches := s.batches[id := Persist(b, AdoptedRecord(r, index))],
              inbox := Refreshed(s.inbox, r.inboxItem, AdoptedText(index, check.value.name, if r.count == 0 then 0 else r.count - 1)))
  }

  function DiscardNext(s: System, id: string, removed: nat, skipped: nat): System {
    if id !in s.batches || Loaded(s.batches[id]).mem.None? then s
    else
      var b := Loaded(s.batches[id]);
      var r := b.mem.value;
      if !DiscardAllowed(r) then s.(batches := s.batches[id := b])
      else s.(batches := s.batches[id := Persist(b, DiscardedRecord(r))],
              inbox := Refreshed(s.inbox, r.inboxItem, DiscardedText(removed, skipped)))
  }

  function Next(s: System, step: Step): System
    requires Enabled(s, step)
  {
    match step
    case Register(r) =>
      s.(batches := s.batches[r.batchId := BatchState(Some(r), None, Registered)])
    case FirstPersist(id) =>
      s.(batches := s.batches[id := Persist(s.batches[id], s.batches[id].mem.value).(runner := Persisted)])
    case Spawn(id) =>
      var b := s.batches[id];
      s.(batches := s.batches[id := b.(runner := Spawned(seq(|b.mem.value.branches|, _ => Queued)))])
    case AcquirePermit(id, i) =>
      WithTask(s, id, i, Executing).(permits := s.permits - 1)
    case QueueError(id, i, message) =>
      WithTask(s, id, i, Observed(Observation(false, Some(message), None)))
    case FoldSpend(id, i, cost) =>
      var b := s.batches[id];
      s.(batches := s.batches[id := b.(mem := Some(WithSpend(b.mem.value, i, cost)))])
    case EngineEnds(id, i, obs) =>
      WithTask(s, id, i, Observed(obs)).(permits := s.permits + 1)
    case FinalizeBranch(id, i, summary, appendOk) => FinalizeNext(s, id, i, summary, appendOk)
    case Adopt(id, index, merge) => AdoptNext(s, id, index, merge)
    case Discard(id, removed, skipped) => DiscardNext(s, id, removed, skipped)
    case GetOrLoad(id) =>
      if id in s.batches then s.(batches := s.batches[id := Loaded(s.batches[id])]) else s
    case List =>
      s.(batches := map id | id in s.batches :: Listed(s.batches[id]))
    case Restart =>
      s.(batches := map id | id in s.batches :: Crashed(s.batches[id]),
         permits := MAX_CONCURRENT_BATCH_BRANCHES)
  }

  ghost predicate IsRun(states: seq<System>, steps: seq<Step>) {
    && |states| == |steps| + 1
    && states[0] == Init()
    && forall k :: 0 <= k < |steps| ==> Enabled(states[k], steps[k]) && states[k + 1] == Next(states[k], steps[k])
  }

  // ---- Invariant ---------------------------------------------------------

  /** What every record of a batch, in memory or on disk, satisfies. */
  ghost predicate RecordInv(id: string, r: BatchRun) {
    && r.batchId == id
    && 0 < |r.branches| == r.count
    && (forall i :: 0 <= i < |r.branches| ==> r.branches[i].index == i && !r.branches[i].status.BranchOther?)
    && (r.status.Running? ==> !AllTerminal(r.branches))
    && (!r.status.Running? && !r.status.Discarded? ==> AllTerminal(r.branches))
    && (r.status in {Completed, Failed, PartiallyFailed} ==> r.status == AggregateStatus(r.branches))
    && (r.adoptedIndex.Some? <==> r.status.Adopted?)
    && (r.status.Adopted? ==> r.adoptedIndex.value < |r.branches| && r.branches[r.adoptedIndex.value].status.BranchCompleted?)
    && !r.status.Other?
  }

  ghost predicate AllRunning(r: BatchRun) {
    forall i :: 0 <= i < |r.branches| ==> r.branches[i].status.BranchRunning? && r.branches[i].spent == 0.0
  }

  /** A branch has its terminal status exactly when its task was finalized, and then it carries that task's outcome. */
  ghost predicate TaskMatches(t: Task, b: Branch) {
    && (t.Finalized? <==> !b.status.BranchRunning?)
    && (t.Finalized? ==>
          && b.status == (if t.obs.completed then BranchCompleted else BranchFailed)
          && KeepsError(b.error, t.obs.error)
          && b.summary == t.summary
          && b.verification.Some? && VerificationMatches(b.verification.value, t.obs))
  }

  ghost predicate SpawnedInv(mem: BatchRun, disk: BatchRun, tasks: seq<Task>) {
    && |tasks| == |mem.branches|
    && (forall i :: 0 <= i < |tasks| ==> TaskMatches(tasks[i], mem.branches[i]))
    && SameButSpend(mem, disk)
    && (forall i :: 0 <= i < |tasks| && (tasks[i].Queued? || tasks[i].Finalized?) ==>
          mem.branches[i].spent == disk.branches[i].spent)
  }

  ghost predicate BatchInv(id: string, b: BatchState) {
    && (b.mem.Some? ==> RecordInv(id, b.mem.value))
    && (b.disk.Some? ==> RecordInv(id, b.disk.value))
    && match b.runner {
         case NoRunner => b.mem.Some? ==> b.disk.Some? && b.mem.value == Reconciled(b.disk.value)
         case Registered =>
           && b.mem.Some? && AllRunning(b.mem.value)
           && if b.disk.Some? then b.disk == b.mem else b.mem.value.status.Running?
         case Persisted => b.mem.Some? && AllRunning(b.mem.value) && b.disk == b.mem
         case Spawned(tasks) => b.mem.Some? && b.disk.Some? && SpawnedInv(b.mem.value, b.disk.value, tasks)
       }
  }

  /** The inbox item a batch owns, as its disk record names it. */
  function ItemOf(b: BatchState): Option<nat> {
    if b.disk.Some? then b.disk.value.inboxItem else None
  }

  ghost predicate HistoryInv(id: string, b: BatchState, s: System) {
    && s.attempts[id] <= 1
    && (b.mem.Some? ==> b.mem.value.inboxItem == ItemOf(b))
    && (b.disk.None? || b.disk.value.status.Running? ==> s.attempts[id] == 0)
    && (ItemOf(b).Some? ==>
          s.attempts[id] == 1 && ItemOf(b).value < |s.inbox| && s.inbox[ItemOf(b).value].source == id)
  }

  ghost predicate InboxInv(s: System) {
    && (forall k :: 0 <= k < |s.inbox| ==>
          s.inbox[k].source in s.batches && ItemOf(s.batches[s.inbox[k].source]) == Some(k))
    && (forall id :: id in s.attempts ==> id in s.batches)
  }

  function ExecutingBranches(s: System): set<(string, nat)> {
    set id, i: nat | id in s.batches && i < TaskCount(s.batches[id]) && IsExecuting(s.batches[id], i) :: (id, i)
  }

  function TaskCount(b: BatchState): nat {
    if b.runner.Spawned? then |b.runner.tasks| else 0
  }

  predicate IsExecuting(b: BatchState, i: nat) {
    b.runner.Spawned? && i < |b.runner.tasks| && b.runner.tasks[i].Executing?
  }

  ghost predicate PermitInv(s: System) {
    s.permits >= 0 && s.permits + |ExecutingBranches(s)| == MAX_CONCURRENT_BATCH_BRANCHES
  }

  ghost predicate BatchesInv(s: System) {
    forall id :: id in s.batches ==> BatchInv(id, s.batches[id])
  }

  ghost predicate InboxHistoryInv(s: System) {
    && (forall id :: id in s.batches ==> HistoryInv(id, s.batches[id], s))
    && InboxInv(s)
  }

  ghost predicate Inv(s: System) {
    BatchesInv(s) && InboxHistoryInv(s) && PermitInv(s)
  }

  // ---- The invariant is kept ---------------------------------------------

  /** In a record whose branches sit at their own index, lookup is positional. */
  lemma FindIsPosition(branches: seq<Branch>, i: nat)
    requires forall j :: 0 <= j < |branches| ==> branches[j].index == j
    ensures i < |branches| ==> FindBranch(branches, i) == Some(i)
    ensures i >= |branches| ==> FindBranch(branches, i) == None
  {
    var k := FindBranch(branches, i);
    if i < |branches| {
      assert branches[i].index == i;
    }
  }

  /** The terminal write of branch `i` on a batch whose tasks are live. */
  lemma OutcomeKeepsRecord(id: string, r: BatchRun, i: nat, obs: Observation, summary: Option<DiffSummary>)
    requires RecordInv(id, r) && i < |r.branches| && r.branches[i].status.BranchRunning?
    ensures WithFinalBranch(r, i, obs, summary).branches == r.branches[i := FinalBranch(r.branches[i], obs, summary)]
    ensures RecordInv(id, WithOutcome(r, i, obs, summary))
  {
    FindIsPosition(r.branches, i);
    var after := r.branches[i := FinalBranch(r.branches[i], obs, summary)];
    AggregateMeaning(after);
    assert r.branches[i].status.BranchRunning?;
  }

  lemma SpendKeepsRecord(id: string, r: BatchRun, i: nat, cost: real)
    requires RecordInv(id, r) && i < |r.branches|
    ensures WithSpend(r, i, cost) ==
            r.(branches := r.branches[i := r.branches[i].(spent := r.branches[i].spent + cost)])
    ensures RecordInv(id, WithSpend(r, i, cost))
    ensures SameButSpend(WithSpend(r, i, cost), r)
  {
    FindIsPosition(r.branches, i);
    SpendKeepsStatuses(r.branches, i, cost);
  }

  lemma {:induction false} SpendKeepsStatuses(branches: seq<Branch>, i: nat, cost: real)
    requires i < |branches|
    ensures
      var after := branches[i := branches[i].(spent := branches[i].spent + cost)];
      && (AllTerminal(after) <==> AllTerminal(branches))
      && AggregateStatus(after) == AggregateStatus(branches)
  {
    var after := branches[i := branches[i].(spent := branches[i].spent + cost)];
    assert forall j :: 0 <= j < |after| ==> after[j].status == branches[j].status;
    FailedCountIgnoresSpend(after, branches);
    assert AllTerminal(after) <==> AllTerminal(branches) by {
      assert forall j :: 0 <= j < |after| ==> (after[j].status.BranchRunning? <==> branches[j].status.BranchRunning?);
    }
  }

  lemma ReconcileKeepsRecord(id: string, r: BatchRun)
    requires RecordInv(id, r)
    ensures RecordInv(id, Reconciled(r))
    ensures !Reconciled(r).status.Running?
  {
    ReconcileLaws(r);
    if r.status.Running? {
      AggregateMeaning(Reconciled(r).branches);
    }
  }

  lemma AdoptKeepsRecord(id: string, r: BatchRun, index: nat)
    requires RecordInv(id, r) && AdoptCheck(r, index).Ok?
    ensures RecordInv(id, AdoptedRecord(r, index))
    ensures index < |r.branches| && AdoptCheck(r, index).value == r.branches[index]
  {
    FindIsPosition(r.branches, index);
  }

  lemma LoadedKeepsBatch(id: string, b: BatchState)
    requires BatchInv(id, b)
    ensures BatchInv(id, Loaded(b)) && BatchInv(id, Listed(b)) && BatchInv(id, Crashed(b))
    ensures ItemOf(Loaded(b)) == ItemOf(Listed(b)) == ItemOf(Crashed(b)) == ItemOf(b)
  {
    if b.disk.Some? {
      ReconcileKeepsRecord(id, b.disk.value);
      ReconcileLaws(b.disk.value);
    }
  }

  // ---- What a step does to one batch -------------------------------------

  ghost predicate LiveAt(b: BatchState, i: nat) {
    b.mem.Some? && b.runner.Spawned? && i < |b.runner.tasks|
  }

  function SetTask(b: BatchState, i: nat, t: Task): BatchState
    requires b.runner.Spawned? && i < |b.runner.tasks|
  {
    b.(runner := Spawned(b.runner.tasks[i := t]))
  }

  /** How `step` takes the state `b` of batch `id` to `b'`. */
  ghost predicate BatchMove(id: string, b: BatchState, b': BatchState, step: Step) {
    match step
    case Register(_) => b' == b
    case FirstPersist(d) =>
      if d != id then b' == b
      else b.runner.Registered? && b.mem.Some? && b' == Persist(b, b.mem.value).(runner := Persisted)
    case Spawn(d) =>
      if d != id then b' == b
      else b.runner.Persisted? && b.mem.Some? && b' == b.(runner := Spawned(seq(|b.mem.value.branches|, _ => Queued)))
    case AcquirePermit(d, i) =>
      if d != id then b' == b
      else LiveAt(b, i) && b.runner.tasks[i].Queued? && b' == SetTask(b, i, Executing)
    case QueueError(d, i, message) =>
      if d != id then b' == b
      else LiveAt(b, i) && b.runner.tasks[i].Queued?
           && b' == SetTask(b, i, Observed(Observation(false, Some(message), None)))
    case FoldSpend(d, i, cost) =>
      if d != id then b' == b
      else LiveAt(b, i) && b.runner.tasks[i].Executing? && b' == b.(mem := Some(WithSpend(b.mem.value, i, cost)))
    case EngineEnds(d, i, obs) =>
      if d != id then b' == b
      else LiveAt(b, i) && b.runner.tasks[i].Executing? && b' == SetTask(b, i, Observed(obs))
    case FinalizeBranch(d, i, summary, _) =>
      if d != id then b' == b
      else
        && LiveAt(b, i) && b.runner.tasks[i].Observed? && b'.mem.Some?
        && var obs := b.runner.tasks[i].obs;
           var r := WithOutcome(b.mem.value, i, obs, summary).(inboxItem := b'.mem.value.inboxItem);
           b' == SetTask(Persist(b, r), i, Finalized(obs, summary))
    case Adopt(d, index, merge) =>
      if d != id || Loaded(b).mem.None? then b' == b
      else if AdoptCheck(Loaded(b).mem.value, index).Ok? && merge.Merged?
      then b' == Persist(b, AdoptedRecord(Loaded(b).mem.value, index))
      else b' == Loaded(b)
    case Discard(d, _, _) =>
      if d != id || Loaded(b).mem.None? then b' == b
      else if DiscardAllowed(Loaded(b).mem.value) then b' == Persist(b, DiscardedRecord(Loaded(b).mem.value))
      else b' == Loaded(b)
    case GetOrLoad(d) => if d == id then b' == Loaded(b) else b' == b
    case List => b' == Listed(b)
    case Restart => b' == Crashed(b)
  }

  lemma StepMoves(s: System, step: Step, id: string)
    requires Enabled(s, step) && id in s.batches
    ensures id in Next(s, step).batches
    ensures BatchMove(id, s.batches[id], Next(s, step).batches[id], step)
  {
  }

  // How the set of executing branches moves when one batch changes.

  lemma TaskChange(s: System, id: string, i: nat, t: Task)
    requires LiveTask(s, id, i)
    ensures WithTask(s, id, i, t).batches.Keys == s.batches.Keys
    ensures ExecutingBranches(WithTask(s, id, i, t)) ==
            if t.Executing? then ExecutingBranches(s) + {(id, i)} else ExecutingBranches(s) - {(id, i)}
    ensures (id, i) in ExecutingBranches(s) <==> TaskAt(s, id, i).Executing?
  {
    var s' := WithTask(s, id, i, t);
    forall d, j: nat
      ensures (d, j) in ExecutingBranches(s') <==>
              (if (d, j) == (id, i) then t.Executing? else (d, j) in ExecutingBranches(s))
    {
      if d in s.batches && d == id {
        assert s'.batches[id].runner.tasks == s.batches[id].runner.tasks[i := t];
      }
    }
    assert forall p :: p in ExecutingBranches(s) ==> p == (p.0, p.1);
    assert forall p :: p in ExecutingBranches(s') ==> p == (p.0, p.1);
  }

  lemma TaskKeepsBatch(id: string, b: BatchState, i: nat, t: Task)
    requires BatchInv(id, b) && b.runner.Spawned? && i < |b.runner.tasks|
    requires !b.runner.tasks[i].Finalized? && !t.Finalized? && !t.Queued?
    ensures BatchInv(id, b.(runner := Spawned(b.runner.tasks[i := t])))
  {
  }

  lemma SpendKeepsBatch(id: string, b: BatchState, i: nat, cost: real)
    requires BatchInv(id, b) && b.runner.Spawned? && i < |b.runner.tasks| && b.runner.tasks[i].Executing?
    ensures BatchInv(id, b.(mem := Some(WithSpend(b.mem.value, i, cost))))
    ensures WithSpend(b.mem.value, i, cost).inboxItem == b.mem.value.inboxItem
  {
    SpendKeepsRecord(id, b.mem.value, i, cost);
    var w := WithSpend(b.mem.value, i, cost);
    assert forall j :: 0 <= j < |w.branches| ==> w.branches[j] == b.mem.value.branches[j].(spent := w.branches[j].spent);
  }

  lemma FinalBranchMatches(b: Branch, obs: Observation, summary: Option<DiffSummary>)
    ensures TaskMatches(Finalized(obs, summary), FinalBranch(b, obs, summary))
  {
  }

  /** The terminal write: task `i` is finalized, memory is written to disk. */
  lemma FinalizeKeepsBatch(id: string, b: BatchState, i: nat, summary: Option<DiffSummary>, item: Option<nat>)
    requires BatchInv(id, b) && b.runner.Spawned? && i < |b.runner.tasks| && b.runner.tasks[i].Observed?
    ensures
      var obs := b.runner.tasks[i].obs;
      var r := WithOutcome(b.mem.value, i, obs, summary).(inboxItem := item);
      BatchInv(id, Persist(b, r).(runner := Spawned(b.runner.tasks[i := Finalized(obs, summary)])))
  {
    var obs, tasks := b.runner.tasks[i].obs, b.runner.tasks;
    var mem := b.mem.value;
    assert TaskMatches(tasks[i], mem.branches[i]);
    OutcomeKeepsRecord(id, mem, i, obs, summary);
    var w := WithOutcome(mem, i, obs, summary);
    RecordInvIgnoresItem(id, w, item);
    assert w.branches == mem.branches[i := FinalBranch(mem.branches[i], obs, summary)];
    FinalBranchMatches(mem.branches[i], obs, summary);
    FinalizedTasksMatch(tasks, mem.branches, w.branches, i, obs, summary);
    var r := w.(inboxItem := item);
    assert SpawnedInv(r, r, tasks[i := Finalized(obs, summary)]);
  }

  lemma RecordInvIgnoresItem(id: string, r: BatchRun, item: Option<nat>)
    requires RecordInv(id, r)
    ensures RecordInv(id, r.(inboxItem := item))
  {
  }

  lemma FinalizedTasksMatch(tasks: seq<Task>, before: seq<Branch>, after: seq<Branch>, i: nat, obs: Observation, summary: Option<DiffSummary>)
    requires |tasks| == |before| == |after| && i < |tasks|
    requires forall j :: 0 <= j < |tasks| ==> TaskMatches(tasks[j], before[j])
    requires forall j :: 0 <= j < |tasks| && j != i ==> after[j] == before[j]
    requires TaskMatches(Finalized(obs, summary), after[i])
    ensures forall j :: 0 <= j < |tasks| ==> TaskMatches(tasks[i := Finalized(obs, summary)][j], after[j])
  {
  }

  /** One batch is written back with memory and disk equal; its item is appended only if none was ever attempted. */
  lemma WriteKeepsHistory(s: System, s': System, id: string, attempt: bool, appended: seq<InboxItem>)
    requires InboxHistoryInv(s) && id in s.batches && id in s'.batches
    requires s'.batches == s.batches[id := s'.batches[id]]
    requires s'.batches[id].disk.Some? && s'.batches[id].mem == s'.batches[id].disk
    requires s'.batches[id].disk.value.status.Running? ==> s.batches[id].disk.None? || s.batches[id].disk.value.status.Running?
    requires s'.attempts == if attempt then s.attempts + multiset{id} else s.attempts
    requires attempt ==> s.batches[id].disk.Some? && s.batches[id].disk.value.status.Running?
                         && !s'.batches[id].disk.value.status.Running?
    requires s'.inbox == s.inbox + appended
    requires if appended == [] then ItemOf(s'.batches[id]) == ItemOf(s.batches[id])
             else attempt && |appended| == 1 && appended[0].source == id && ItemOf(s'.batches[id]) == Some(|s.inbox|)
    ensures InboxHistoryInv(s')
  {
    assert HistoryInv(id, s.batches[id], s);
    forall d | d in s'.batches ensures HistoryInv(d, s'.batches[d], s') {
      assert HistoryInv(d, s.batches[d], s);
    }
    forall k | 0 <= k < |s'.inbox|
      ensures s'.inbox[k].source in s'.batches && ItemOf(s'.batches[s'.inbox[k].source]) == Some(k)
    {
      if k < |s.inbox| { assert s'.inbox[k] == s.inbox[k]; }
    }
  }

  /** A batch that leaves `running` by a terminal write holds an aggregate status. */
  lemma OutcomeStatus(r: BatchRun, i: nat, obs: Observation, summary: Option<DiffSummary>)
    ensures WithOutcome(r, i, obs, summary).inboxItem == r.inboxItem
    ensures if BecameTerminal(r, i, obs, summary)
            then WithOutcome(r, i, obs, summary).status in {Completed, Failed, PartiallyFailed}
            else WithOutcome(r, i, obs, summary).status == r.status
  {
    AggregateMeaning(WithFinalBranch(r, i, obs, summary).branches);
  }

  lemma LoadedKeepsItem(id: string, b: BatchState, s: System)
    requires BatchInv(id, b) && HistoryInv(id, b, s)
    ensures Loaded(b).mem.Some? ==> Loaded(b).mem.value.inboxItem == ItemOf(b)
    ensures Listed(b).mem.Some? ==> Listed(b).mem.value.inboxItem == ItemOf(b)
  {
    if b.disk.Some? { ReconcileLaws(b.disk.value); }
  }

  lemma AdoptKeepsBatch(id: string, b: BatchState, index: nat)
    requires BatchInv(id, b) && b.mem.Some? && AdoptCheck(b.mem.value, index).Ok?
    ensures BatchInv(id, Persist(b, AdoptedRecord(b.mem.value, index)))
  {
    AdoptKeepsRecord(id, b.mem.value, index);
    ReconcileLaws(AdoptedRecord(b.mem.value, index));
  }

  lemma DiscardKeepsBatch(id: string, b: BatchState)
    requires BatchInv(id, b) && b.mem.Some? && DiscardAllowed(b.mem.value)
    ensures BatchInv(id, Persist(b, DiscardedRecord(b.mem.value)))
  {
    ReconcileLaws(DiscardedRecord(b.mem.value));
  }

  // Batches.

  lemma MoveKeepsBatch(id: string, b: BatchState, b': BatchState, step: Step)
    requires BatchInv(id, b) && BatchMove(id, b, b', step)
    ensures BatchInv(id, b')
  {
    match step
    case Register(_) =>
    case FirstPersist(d) =>
    case Spawn(d) =>
    case AcquirePermit(d, i) => if d == id { TaskKeepsBatch(id, b, i, Executing); }
    case QueueError(d, i, message) => if d == id { TaskKeepsBatch(id, b, i, b'.runner.tasks[i]); }
    case FoldSpend(d, i, cost) => if d == id { SpendKeepsBatch(id, b, i, cost); }
    case EngineEnds(d, i, obs) => if d == id { TaskKeepsBatch(id, b, i, Observed(obs)); }
    case FinalizeBranch(d, i, summary, _) => if d == id { FinalizeKeepsBatch(id, b, i, summary, b'.mem.value.inboxItem); }
    case Adopt(d, index, merge) =>
      LoadedKeepsBatch(id, b);
      if d == id && Loaded(b).mem.Some? && AdoptCheck(Loaded(b).mem.value, index).Ok? {
        AdoptKeepsBatch(id, Loaded(b), index);
      }
    case Discard(d, _, _) =>
      LoadedKeepsBatch(id, b);
      if d == id && Loaded(b).mem.Some? && DiscardAllowed(Loaded(b).mem.value) {
        DiscardKeepsBatch(id, Loaded(b));
      }
    case GetOrLoad(_) => LoadedKeepsBatch(id, b);
    case List => LoadedKeepsBatch(id, b);
    case Restart => LoadedKeepsBatch(id, b);
  }

  lemma FreshBatchInv(r: BatchRun)
    requires FreshRecord(r)
    ensures BatchInv(r.batchId, BatchState(Some(r), None, Registered))
  {
    assert r.branches[0].status.BranchRunning?;
  }

  /** The only batch a step adds is the one it registers. */
  lemma NewBatch(s: System, step: Step, id: string)
    requires Enabled(s, step) && id in Next(s, step).batches && id !in s.batches
    ensures step.Register? && step.record.batchId == id
    ensures Next(s, step).batches[id] == BatchState(Some(step.record), None, Registered)
  {
  }

  lemma StepKeepsBatches(s: System, step: Step)
    requires BatchesInv(s) && Enabled(s, step)
    ensures BatchesInv(Next(s, step))
  {
    hide Next, BatchInv, BatchMove;
    forall id | id in Next(s, step).batches
      ensures BatchInv(id, Next(s, step).batches[id])
    {
      if id in s.batches {
        StepMoves(s, step, id);
        MoveKeepsBatch(id, s.batches[id], Next(s, step).batches[id], step);
      } else {
        NewBatch(s, step, id);
        FreshBatchInv(step.record);
      }
    }
  }

  // Permits.

  lemma ExecutingMove(id: string, b: BatchState, b': BatchState, step: Step, i: nat)
    requires BatchMove(id, b, b', step)
    requires !step.AcquirePermit? && !step.EngineEnds? && !step.Restart?
    ensures IsExecuting(b', i) == IsExecuting(b, i)
  {
  }

  lemma QuietStepKeepsPermits(s: System, step: Step)
    requires Enabled(s, step)
    requires !step.AcquirePermit? && !step.EngineEnds? && !step.Restart?
    ensures ExecutingBranches(Next(s, step)) == ExecutingBranches(s)
    ensures Next(s, step).permits == s.permits
  {
    var s' := Next(s, step);
    assert s'.permits == s.permits;
    hide Next, BatchMove, IsExecuting;
    forall id, i: nat
      ensures (id, i) in ExecutingBranches(s') <==> (id, i) in ExecutingBranches(s)
    {
      if id in s.batches {
        StepMoves(s, step, id);
        ExecutingMove(id, s.batches[id], s'.batches[id], step, i);
        ExecutingIsMember(s, id, i);
        ExecutingIsMember(s', id, i);
      } else if id in s'.batches {
        NewBatch(s, step, id);
      }
    }
    assert forall p :: p in ExecutingBranches(s) ==> p == (p.0, p.1);
    assert forall p :: p in ExecutingBranches(s') ==> p == (p.0, p.1);
  }

  lemma ExecutingIsMember(s: System, id: string, i: nat)
    requires id in s.batches
    ensures (id, i) in ExecutingBranches(s) <==> IsExecuting(s.batches[id], i)
  {
  }

  lemma StepKeepsPermits(s: System, step: Step)
    requires PermitInv(s) && Enabled(s, step)
    ensures PermitInv(Next(s, step))
  {
    if step.AcquirePermit? {
      TaskChange(s, step.id, step.i, Executing);
      assert ExecutingBranches(Next(s, step)) == ExecutingBranches(WithTask(s, step.id, step.i, Executing));
    } else if step.EngineEnds? {
      TaskChange(s, step.id, step.i, Observed(step.obs));
      assert ExecutingBranches(Next(s, step)) == ExecutingBranches(WithTask(s, step.id, step.i, Observed(step.obs)));
    } else if step.Restart? {
      assert ExecutingBranches(Next(s, step)) == {};
    } else {
      QuietStepKeepsPermits(s, step);
    }
  }

  // Inbox and history.

  /** Every step but a terminal write keeps a batch's item and does not turn a settled disk record back to running. */
  lemma QuietMove(id: string, b: BatchState, b': BatchState, step: Step, s: System)
    requires BatchInv(id, b) && HistoryInv(id, b, s) && BatchMove(id, b, b', step) && !step.FinalizeBranch?
    ensures ItemOf(b') == ItemOf(b)
    ensures b'.mem.Some? ==> b'.mem.value.inboxItem == ItemOf(b')
    ensures b'.disk.None? || b'.disk.value.status.Running? ==> b.disk.None? || b.disk.value.status.Running?
  {
    LoadedKeepsItem(id, b, s);
    LoadedKeepsBatch(id, b);
    if b.disk.Some? { ReconcileLaws(b.disk.value); }
    if step.FoldSpend? && step.id == id {
      SpendKeepsBatch(id, b, step.i, step.cost);
    }
  }

  lemma QuietStepKeepsInbox(s: System, step: Step)
    requires Enabled(s, step) && !step.FinalizeBranch?
    ensures Next(s, step).attempts == s.attempts && |Next(s, step).inbox| == |s.inbox|
    ensures forall k :: 0 <= k < |s.inbox| ==> Next(s, step).inbox[k].source == s.inbox[k].source
  {
  }

  /** What one batch has after a quiet step: its history, and the item it had. */
  ghost predicate KeepsItem(s: System, s': System, id: string) {
    && id in s'.batches
    && HistoryInv(id, s'.batches[id], s')
    && ItemOf(s'.batches[id]) == if id in s.batches then ItemOf(s.batches[id]) else None
  }

  lemma QuietStepKeepsItem(s: System, step: Step, id: string)
    requires BatchesInv(s) && InboxHistoryInv(s) && Enabled(s, step) && !step.FinalizeBranch?
    requires id in s.batches || id in Next(s, step).batches
    ensures KeepsItem(s, Next(s, step), id)
  {
    QuietStepKeepsInbox(s, step);
    hide Next, BatchInv, BatchMove;
    if id in s.batches {
      assert HistoryInv(id, s.batches[id], s);
      StepMoves(s, step, id);
      QuietMove(id, s.batches[id], Next(s, step).batches[id], step, s);
    } else {
      NewBatch(s, step, id);
      assert step.record.inboxItem == None;
      assert s.attempts[id] == 0;
    }
  }

  lemma ItemsKept(s: System, s': System)
    requires InboxInv(s) && s'.attempts == s.attempts && |s'.inbox| == |s.inbox|
    requires forall k :: 0 <= k < |s.inbox| ==> s'.inbox[k].source == s.inbox[k].source
    requires forall id :: id in s.batches || id in s'.batches ==> KeepsItem(s, s', id)
    ensures InboxHistoryInv(s')
  {
    forall k | 0 <= k < |s'.inbox|
      ensures s'.inbox[k].source in s'.batches && ItemOf(s'.batches[s'.inbox[k].source]) == Some(k)
    {
      assert KeepsItem(s, s', s.inbox[k].source);
    }
    forall id | id in s'.attempts
      ensures id in s'.batches
    {
      assert KeepsItem(s, s', id);
    }
  }

  lemma QuietStepKeepsHistory(s: System, step: Step)
    requires BatchesInv(s) && InboxHistoryInv(s) && Enabled(s, step) && !step.FinalizeBranch?
    ensures InboxHistoryInv(Next(s, step))
  {
    QuietStepKeepsInbox(s, step);
    hide Next, KeepsItem, BatchesInv;
    forall id | id in s.batches || id in Next(s, step).batches
      ensures KeepsItem(s, Next(s, step), id)
    {
      QuietStepKeepsItem(s, step, id);
    }
    ItemsKept(s, Next(s, step));
  }

  lemma FinalizeKeepsHistory(s: System, id: string, i: nat, summary: Option<DiffSummary>, appendOk: bool)
    requires BatchesInv(s) && InboxHistoryInv(s) && LiveTask(s, id, i) && TaskAt(s, id, i).Observed?
    ensures InboxHistoryInv(FinalizeNext(s, id, i, summary, appendOk))
  {
    var s' := FinalizeNext(s, id, i, summary, appendOk);
    var b, obs := s.batches[id], TaskAt(s, id, i).obs;
    assert BatchInv(id, b);
    var r := b.mem.value;
    assert r.status == b.disk.value.status && r.inboxItem == b.disk.value.inboxItem;
    OutcomeStatus(r, i, obs, summary);
    var attempt := AttemptsInbox(r, i, obs, summary);
    var w := WithOutcome(r, i, obs, summary);
    var appended := if attempt && appendOk then [CompletionItem(w)] else [];
    assert RecordInv(id, r) && w.batchId == id;
    hide BatchInv, RecordInv, WithOutcome, BecameTerminal;
    WriteKeepsHistory(s, s', id, attempt, appended);
  }

  lemma StepKeepsInv(s: System, step: Step)
    requires Inv(s) && Enabled(s, step)
    ensures Inv(Next(s, step))
  {
    hide BatchesInv, InboxHistoryInv, PermitInv;
    StepKeepsBatches(s, step);
    StepKeepsPermits(s, step);
    match step
    case FinalizeBranch(id, i, summary, appendOk) => FinalizeKeepsHistory(s, id, i, summary, appendOk);
    case _ => QuietStepKeepsHistory(s, step);
  }

  /** Every state of every run, restarts included, satisfies the invariant. */
  lemma {:induction false} RunKeepsInv(states: seq<System>, steps: seq<Step>, k: nat)
    requires IsRun(states, steps) && k < |states|
    ensures Inv(states[k])
  {
    if k == 0 {
      assert ExecutingBranches(Init()) == {};
    } else {
      RunKeepsInv(states, steps, k - 1);
      StepKeepsInv(states[k - 1], steps[k - 1]);
    }
  }
}
