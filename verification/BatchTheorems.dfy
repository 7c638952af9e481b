/**
 What every run of the batch protocol guarantees: the status of a batch, what
 never changes once it is settled, what a crash loses, where spend comes from,
 the permit count, progress, and the one inbox item per batch.
 */
module BatchTheorems {
  import opened Common
  import opened BatchRecord
  import opened BatchProtocol

  /** The record a user is shown: the live one, or what loading the disk record would give. */
  function Known(b: BatchState): Option<BatchRun> {
    if b.mem.Some? then b.mem
    else if b.disk.Some? then Some(Reconciled(b.disk.value))
    else None
  }

  // ---- Status ------------------------------------------------------------

  /** The status of a live batch, in any state of any run, read off its branches. */
  lemma LiveStatus(states: seq<System>, steps: seq<Step>, k: nat, id: string)
    requires IsRun(states, steps) && k < |states|
    requires id in states[k].batches && states[k].batches[id].mem.Some?
    ensures
      var r := states[k].batches[id].mem.value;
      && (r.status.Running? <==> !AllTerminal(r.branches) && !r.status.Discarded?)
      && (r.status in {Completed, Failed, PartiallyFailed} ==> AllTerminal(r.branches) && r.status == AggregateStatus(r.branches))
      && (r.adoptedIndex.Some? <==> r.status.Adopted?)
      && (r.status.Adopted? ==> r.adoptedIndex.value < |r.branches|
                                && r.branches[r.adoptedIndex.value].status.BranchCompleted?)
      && r.status in {Running, Completed, Failed, PartiallyFailed, Adopted, Discarded}
  {
    RunKeepsInv(states, steps, k);
    assert BatchInv(id, states[k].batches[id]);
  }

  // ---- Settled batches ---------------------------------------------------

  ghost predicate AllFinalized(tasks: seq<Task>) {
    forall i :: 0 <= i < |tasks| ==> tasks[i].Finalized?
  }

  /** When every branch of a known record is terminal, memory and disk tell the same story, spend included. */
  lemma TerminalMeansMirrored(id: string, b: BatchState)
    requires BatchInv(id, b) && Known(b).Some? && AllTerminal(Known(b).value.branches)
    ensures b.runner.NoRunner? || b.runner.Spawned?
    ensures b.disk.Some? && Reconciled(b.disk.value) == Known(b).value
    ensures b.runner.Spawned? ==> AllFinalized(b.runner.tasks) && b.disk == b.mem
  {
    var r := Known(b).value;
    if b.disk.Some? { ReconcileLaws(b.disk.value); }
    assert !r.branches[0].status.BranchRunning?;
    if b.runner.Spawned? {
      var tasks := b.runner.tasks;
      forall i | 0 <= i < |tasks| ensures tasks[i].Finalized? && r.branches[i] == b.disk.value.branches[i] {
        assert TaskMatches(tasks[i], r.branches[i]);
        assert !r.branches[i].status.BranchRunning?;
      }
      assert r.branches == b.disk.value.branches;
      assert r == b.disk.value;
      assert !r.status.Running?;
    }
  }

  lemma TerminalMove(id: string, b: BatchState, b': BatchState, step: Step)
    requires BatchInv(id, b) && BatchMove(id, b, b', step)
    requires Known(b).Some? && AllTerminal(Known(b).value.branches)
    ensures Known(b').Some?
    ensures
      var r, r' := Known(b).value, Known(b').value;
      && r'.branches == r.branches
      && (r' == r
          || (step.Adopt? && step.id == id && AdoptCheck(r, step.index).Ok? && r' == AdoptedRecord(r, step.index))
          || (step.Discard? && step.id == id && DiscardAllowed(r) && r' == DiscardedRecord(r)))
  {
    TerminalMeansMirrored(id, b);
    ReconcileLaws(b.disk.value);
    if b.mem.Some? { ReconcileLaws(b.mem.value); }
  }

  /** One step cannot touch the rows of a batch whose branches are all terminal; only adopt and discard change its status. */
  lemma TerminalStep(s: System, step: Step, id: string)
    requires Inv(s) && Enabled(s, step) && id in s.batches
    requires Known(s.batches[id]).Some? && AllTerminal(Known(s.batches[id]).value.branches)
    ensures id in Next(s, step).batches && Known(Next(s, step).batches[id]).Some?
    ensures
      var r, r' := Known(s.batches[id]).value, Known(Next(s, step).batches[id]).value;
      && r'.branches == r.branches
      && (r' == r
          || (step.Adopt? && step.id == id && AdoptCheck(r, step.index).Ok? && r' == AdoptedRecord(r, step.index))
          || (step.Discard? && step.id == id && DiscardAllowed(r) && r' == DiscardedRecord(r)))
  {
    assert BatchInv(id, s.batches[id]);
    StepMoves(s, step, id);
    TerminalMove(id, s.batches[id], Next(s, step).batches[id], step);
  }

  /**
   Once every branch of a batch is terminal, no branch row (spend included) ever
   changes again: not in memory, not on disk, not through any number of crashes.
   */
  lemma {:induction false} TerminalRowsFrozen(states: seq<System>, steps: seq<Step>, j: nat, k: nat, id: string)
    requires IsRun(states, steps) && j <= k < |states|
    requires id in states[j].batches && Known(states[j].batches[id]).Some?
    requires AllTerminal(Known(states[j].batches[id]).value.branches)
    ensures id in states[k].batches && Known(states[k].batches[id]).Some?
    ensures Known(states[k].batches[id]).value.branches == Known(states[j].batches[id]).value.branches
    decreases k
  {
    hide Next, Inv, Enabled;
    if j < k {
      TerminalRowsFrozen(states, steps, j, k - 1, id);
      RunKeepsInv(states, steps, k - 1);
      TerminalStep(states[k - 1], steps[k - 1], id);
    }
  }

  lemma AdoptedStep(s: System, step: Step, id: string)
    requires Inv(s) && Enabled(s, step) && id in s.batches
    requires Known(s.batches[id]).Some? && Known(s.batches[id]).value.status.Adopted?
    ensures id in Next(s, step).batches && Known(Next(s, step).batches[id]) == Known(s.batches[id])
  {
    hide Next, Enabled;
    var b := s.batches[id];
    assert BatchInv(id, b);
    if b.disk.Some? { ReconcileKeepsRecord(id, b.disk.value); }
    TerminalStep(s, step, id);
  }

  /** An adopted batch is frozen whole: the same record, field for field, in every later state. */
  lemma {:induction false} AdoptedForever(states: seq<System>, steps: seq<Step>, j: nat, k: nat, id: string)
    requires IsRun(states, steps) && j <= k < |states|
    requires id in states[j].batches && Known(states[j].batches[id]).Some?
    requires Known(states[j].batches[id]).value.status.Adopted?
    ensures id in states[k].batches && Known(states[k].batches[id]) == Known(states[j].batches[id])
    decreases k
  {
    hide Next, Inv, Enabled;
    if j < k {
      AdoptedForever(states, steps, j, k - 1, id);
      RunKeepsInv(states, steps, k - 1);
      AdoptedStep(states[k - 1], steps[k - 1], id);
    }
  }

  lemma DiscardedMove(id: string, b: BatchState, b': BatchState, step: Step)
    requires BatchInv(id, b) && BatchMove(id, b, b', step)
    requires Known(b).Some? && Known(b).value.status.Discarded?
    ensures Known(b').Some? && Known(b').value.status.Discarded?
  {
    DiscardedIsOnDisk(id, b);
    if step.FinalizeBranch? && step.id == id {
      OutcomeStatus(b.mem.value, step.i, b.runner.tasks[step.i].obs, step.summary);
    }
  }

  lemma DiscardedIsOnDisk(id: string, b: BatchState)
    requires BatchInv(id, b) && Known(b).Some? && Known(b).value.status.Discarded?
    ensures b.disk.Some? && b.disk.value.status.Discarded? && Reconciled(b.disk.value) == b.disk.value
  {
    if b.disk.Some? {
      ReconcileLaws(b.disk.value);
      if b.disk.value.status.Running? { AggregateMeaning(InterruptedBranches(b.disk.value.branches)); }
    }
  }

  /** A discarded batch stays discarded, also when its branches finalize afterwards and through crashes. */
  lemma {:induction false} DiscardedForever(states: seq<System>, steps: seq<Step>, j: nat, k: nat, id: string)
    requires IsRun(states, steps) && j <= k < |states|
    requires id in states[j].batches && Known(states[j].batches[id]).Some?
    requires Known(states[j].batches[id]).value.status.Discarded?
    ensures id in states[k].batches && Known(states[k].batches[id]).Some?
    ensures Known(states[k].batches[id]).value.status.Discarded?
    decreases k
  {
    hide Next, Enabled;
    if j < k {
      DiscardedForever(states, steps, j, k - 1, id);
      RunKeepsInv(states, steps, k - 1);
      assert BatchInv(id, states[k - 1].batches[id]);
      StepMoves(states[k - 1], steps[k - 1], id);
      DiscardedMove(id, states[k - 1].batches[id], states[k].batches[id], steps[k - 1]);
    }
  }

  // ---- Identity ------------------------------------------------------------

  /** The fields set at start: everything but statuses, outcomes, spend and the inbox link. */
  ghost predicate SameIdentity(a: BatchRun, b: BatchRun) {
    && a == b.(status := a.status, branches := a.branches, adoptedIndex := a.adoptedIndex, inboxItem := a.inboxItem)
    && |a.branches| == |b.branches|
    && forall i :: 0 <= i < |a.branches| ==> SameRow(a.branches[i], b.branches[i])
  }

  predicate SameRow(a: Branch, b: Branch) {
    a.index == b.index && a.name == b.name && a.worktree == b.worktree
  }

  lemma ReconcileKeepsIdentity(r: BatchRun)
    ensures SameIdentity(Reconciled(r), r)
  {
    ReconcileLaws(r);
  }

  lemma OutcomeKeepsIdentity(r: BatchRun, i: nat, obs: Observation, summary: Option<DiffSummary>, item: Option<nat>)
    ensures SameIdentity(WithOutcome(r, i, obs, summary).(inboxItem := item), r)
  {
  }

  lemma MirrorIdentity(id: string, b: BatchState)
    requires BatchInv(id, b) && b.mem.Some? && b.disk.Some?
    ensures SameIdentity(Reconciled(b.disk.value), b.mem.value)
  {
    ReconcileKeepsIdentity(b.disk.value);
    if b.runner.Spawned? {
      assert SameButSpend(b.mem.value, b.disk.value);
      forall i | 0 <= i < |b.mem.value.branches|
        ensures SameRow(b.disk.value.branches[i], b.mem.value.branches[i])
      {
        assert b.mem.value.branches[i] == b.disk.value.branches[i].(spent := b.mem.value.branches[i].spent);
      }
    }
  }

  /** A live record keeps its identity in every move but a crash. */
  lemma LiveIdentityMove(id: string, b: BatchState, b': BatchState, step: Step)
    requires BatchMove(id, b, b', step) && b.mem.Some? && !step.Restart?
    ensures b'.mem.Some? && SameIdentity(b'.mem.value, b.mem.value)
  {
    if step.FinalizeBranch? && step.id == id {
      OutcomeKeepsIdentity(b.mem.value, step.i, b.runner.tasks[step.i].obs, step.summary, b'.mem.value.inboxItem);
    }
  }

  /** A batch only on disk is known by its reconciled record, loaded or not. */
  lemma LoadedIdentityMove(id: string, b: BatchState, b': BatchState, step: Step)
    requires BatchInv(id, b) && BatchMove(id, b, b', step) && b.mem.None?
    ensures Known(b').Some? ==> b.disk.Some? && SameIdentity(Known(b').value, Reconciled(b.disk.value))
  {
    if b.disk.Some? { ReconcileLaws(b.disk.value); }
  }

  lemma IdentityMove(id: string, b: BatchState, b': BatchState, step: Step)
    requires BatchInv(id, b) && BatchMove(id, b, b', step)
    requires Known(b').Some?
    ensures Known(b).Some? && SameIdentity(Known(b').value, Known(b).value)
  {
    if b.mem.None? {
      LoadedIdentityMove(id, b, b', step);
    } else if step.Restart? {
      MirrorIdentity(id, b);
    } else {
      LiveIdentityMove(id, b, b', step);
    }
  }

  /** The batch is known later only if it was known before, and then as the same batch. */
  ghost predicate Continues(later: Option<BatchRun>, earlier: Option<BatchRun>) {
    later.Some? ==> earlier.Some? && SameIdentity(later.value, earlier.value)
  }

  lemma IdentityStep(s: System, step: Step, id: string)
    requires Inv(s) && Enabled(s, step) && id in s.batches
    ensures id in Next(s, step).batches
    ensures Continues(Known(Next(s, step).batches[id]), Known(s.batches[id]))
  {
    assert BatchInv(id, s.batches[id]);
    StepMoves(s, step, id);
    if Known(Next(s, step).batches[id]).Some? {
      IdentityMove(id, s.batches[id], Next(s, step).batches[id], step);
    }
  }

  lemma ContinuesTransitive(a: Option<BatchRun>, b: Option<BatchRun>, c: Option<BatchRun>)
    requires Continues(a, b) && Continues(b, c)
    ensures Continues(a, c)
  {
    if a.Some? {
      forall i | 0 <= i < |a.value.branches|
        ensures SameRow(a.value.branches[i], c.value.branches[i])
      {
        assert SameRow(a.value.branches[i], b.value.branches[i]) && SameRow(b.value.branches[i], c.value.branches[i]);
      }
    }
  }

  lemma ContinuesReflexive(a: Option<BatchRun>)
    ensures Continues(a, a)
  {
  }

  /** What start wrote of a batch (names, paths, base, prompt, count) is what every later state knows of it. */
  lemma {:induction false} IdentityFixed(states: seq<System>, steps: seq<Step>, j: nat, k: nat, id: string)
    requires IsRun(states, steps) && j <= k < |states|
    requires id in states[j].batches
    ensures id in states[k].batches
    ensures Continues(Known(states[k].batches[id]), Known(states[j].batches[id]))
    decreases k
  {
    hide Next, Inv, Enabled, Known, SameIdentity;
    if j < k {
      RunKeepsInv(states, steps, k - 1);
      IdentityFixed(states, steps, j, k - 1, id);
      IdentityStep(states[k - 1], steps[k - 1], id);
      ContinuesTransitive(Known(states[k].batches[id]), Known(states[k - 1].batches[id]), Known(states[j].batches[id]));
    } else {
      ContinuesReflexive(Known(states[k].batches[id]));
    }
  }

  // ---- Crash recovery ----------------------------------------------------

  predicate InFlight(b: BatchState, i: nat) {
    b.runner.Spawned? && i < |b.runner.tasks| && (b.runner.tasks[i].Executing? || b.runner.tasks[i].Observed?)
  }

  /**
   A crash at any moment after start's first persist: what the next process
   loads from disk is what reconciling the lost memory record would have given,
   except for the spend of branches that were in flight.
   */
  lemma CrashRecovery(states: seq<System>, steps: seq<Step>, k: nat, id: string)
    requires IsRun(states, steps) && k < |states|
    requires id in states[k].batches && states[k].batches[id].mem.Some? && !states[k].batches[id].runner.Registered?
    ensures
      var b := states[k].batches[id];
      var lost := Reconciled(b.mem.value);
      && Known(Crashed(b)).Some?
      && SameButSpend(Known(Crashed(b)).value, lost)
      && forall i :: 0 <= i < |lost.branches| && !InFlight(b, i) ==> Known(Crashed(b)).value.branches[i] == lost.branches[i]
  {
    RunKeepsInv(states, steps, k);
    assert BatchInv(id, states[k].batches[id]);
    hide Next, Inv, Enabled;
    CrashOfBatch(id, states[k].batches[id]);
  }

  lemma CrashOfBatch(id: string, b: BatchState)
    requires BatchInv(id, b) && b.mem.Some? && !b.runner.Registered?
    ensures
      var lost := Reconciled(b.mem.value);
      && Known(Crashed(b)).Some?
      && SameButSpend(Known(Crashed(b)).value, lost)
      && forall i :: 0 <= i < |lost.branches| && !InFlight(b, i) ==> Known(Crashed(b)).value.branches[i] == lost.branches[i]
  {
    ReconcileLaws(b.disk.value);
    ReconcileLaws(b.mem.value);
    if b.runner.Spawned? {
      assert SpawnedInv(b.mem.value, b.disk.value, b.runner.tasks);
      assert SameButSpend(b.disk.value, b.mem.value) by { SameButSpendSymmetric(b.mem.value, b.disk.value); }
      ReconcileIgnoresSpend(b.disk.value, b.mem.value);
      forall i | 0 <= i < |b.mem.value.branches| && !InFlight(b, i)
        ensures b.disk.value.branches[i] == b.mem.value.branches[i]
      {
        assert b.runner.tasks[i].Queued? || b.runner.tasks[i].Finalized?;
      }
    }
  }

  lemma SameButSpendSymmetric(a: BatchRun, b: BatchRun)
    requires SameButSpend(a, b)
    ensures SameButSpend(b, a)
  {
    assert b == a.(branches := b.branches);
    forall i | 0 <= i < |b.branches| ensures b.branches[i] == a.branches[i].(spent := b.branches[i].spent) {
      assert a.branches[i] == b.branches[i].(spent := a.branches[i].spent);
    }
  }

  // ---- Spend -------------------------------------------------------------

  /** The costs a trace folds into branch `i` of batch `id`. */
  function Folded(steps: seq<Step>, id: string, i: nat): real {
    if steps == [] then 0.0
    else
      var last := steps[|steps| - 1];
      Folded(steps[..|steps| - 1], id, i)
      + if last.FoldSpend? && last.id == id && last.i == i then last.cost else 0.0
  }

  ghost predicate SpendIsFolded(b: BatchState, steps: seq<Step>, id: string) {
    b.mem.Some? && !b.runner.NoRunner? ==>
      forall i :: 0 <= i < |b.mem.value.branches| ==> b.mem.value.branches[i].spent == Folded(steps, id, i)
  }

  lemma OutcomeKeepsSpend(id: string, r: BatchRun, i: nat, obs: Observation, summary: Option<DiffSummary>)
    requires RecordInv(id, r) && i < |r.branches|
    ensures |WithOutcome(r, i, obs, summary).branches| == |r.branches|
    ensures forall j :: 0 <= j < |r.branches| ==> WithOutcome(r, i, obs, summary).branches[j].spent == r.branches[j].spent
  {
    FindIsPosition(r.branches, i);
  }

  /** A move of a live batch folds exactly what the trace gains. */
  lemma SpendMove(id: string, b: BatchState, b': BatchState, before: seq<Step>, step: Step)
    requires BatchInv(id, b) && BatchMove(id, b, b', step)
    requires SpendIsFolded(b, before, id)
    ensures SpendIsFolded(b', before + [step], id)
  {
    assert (before + [step])[..|before|] == before;
    if b'.mem.Some? && !b'.runner.NoRunner? {
      if step.FoldSpend? && step.id == id {
        SpendKeepsRecord(id, b.mem.value, step.i, step.cost);
      } else if step.FinalizeBranch? && step.id == id {
        OutcomeKeepsSpend(id, b.mem.value, step.i, b.runner.tasks[step.i].obs, step.summary);
      }
      assert |b'.mem.value.branches| == |b.mem.value.branches|;
      forall i | 0 <= i < |b'.mem.value.branches|
        ensures b'.mem.value.branches[i].spent == Folded(before + [step], id, i)
      {
        assert b.mem.value.branches[i].spent == Folded(before, id, i);
      }
    }
  }

  lemma {:induction false} SpendStep(s: System, step: Step, before: seq<Step>, id: string)
    requires Inv(s) && Enabled(s, step)
    requires if id in s.batches then SpendIsFolded(s.batches[id], before, id) else forall i: nat :: Folded(before, id, i) == 0.0
    ensures if id in Next(s, step).batches then SpendIsFolded(Next(s, step).batches[id], before + [step], id)
            else forall i: nat :: Folded(before + [step], id, i) == 0.0
  {
    if id in s.batches {
      hide Next;
      assert BatchInv(id, s.batches[id]);
      StepMoves(s, step, id);
      SpendMove(id, s.batches[id], Next(s, step).batches[id], before, step);
    } else {
      assert (before + [step])[..|before|] == before;
      forall i: nat ensures Folded(before + [step], id, i) == 0.0 {
        assert Folded(before, id, i) == 0.0;
      }
    }
  }

  lemma {:induction false} SpendIsFoldedOverRun(states: seq<System>, steps: seq<Step>, k: nat, id: string)
    requires IsRun(states, steps) && k < |states|
    ensures if id in states[k].batches then SpendIsFolded(states[k].batches[id], steps[..k], id)
            else forall i: nat :: Folded(steps[..k], id, i) == 0.0
  {
    hide Next, Inv, Enabled;
    if k > 0 {
      SpendIsFoldedOverRun(states, steps, k - 1, id);
      RunKeepsInv(states, steps, k - 1);
      assert steps[..k] == steps[..k - 1] + [steps[k - 1]];
      SpendStep(states[k - 1], steps[k - 1], steps[..k - 1], id);
    }
  }

  /** Conservation: a live branch's spend is the sum of the costs its engine run reported, no more and no less. */
  lemma LiveSpendIsSumOfCosts(states: seq<System>, steps: seq<Step>, k: nat, id: string, i: nat)
    requires IsRun(states, steps) && k < |states|
    requires id in states[k].batches && !states[k].batches[id].runner.NoRunner?
    ensures
      var b := states[k].batches[id];
      b.mem.Some? && (i < |b.mem.value.branches| ==> b.mem.value.branches[i].spent == Folded(steps[..k], id, i))
  {
    RunKeepsInv(states, steps, k);
    assert BatchInv(id, states[k].batches[id]);
    SpendIsFoldedOverRun(states, steps, k, id);
  }

  ghost predicate NonNegativeCosts(steps: seq<Step>) {
    forall k :: 0 <= k < |steps| && steps[k].FoldSpend? ==> steps[k].cost >= 0.0
  }

  ghost predicate DiskSpendBelow(b: BatchState) {
    b.mem.Some? && b.disk.Some? && |b.mem.value.branches| == |b.disk.value.branches| ==>
      forall i :: 0 <= i < |b.disk.value.branches| ==> b.disk.value.branches[i].spent <= b.mem.value.branches[i].spent
  }

  lemma DiskSpendMove(id: string, b: BatchState, b': BatchState, step: Step)
    requires BatchInv(id, b) && BatchMove(id, b, b', step)
    requires step.FoldSpend? ==> step.cost >= 0.0
    requires DiskSpendBelow(b)
    ensures DiskSpendBelow(b')
  {
    if b.disk.Some? { ReconcileLaws(b.disk.value); }
    if step.FoldSpend? && step.id == id {
      SpendKeepsRecord(id, b.mem.value, step.i, step.cost);
    }
  }

  lemma DiskSpendStep(s: System, step: Step, id: string)
    requires Inv(s) && Enabled(s, step)
    requires step.FoldSpend? ==> step.cost >= 0.0
    requires id in s.batches ==> DiskSpendBelow(s.batches[id])
    ensures id in Next(s, step).batches ==> DiskSpendBelow(Next(s, step).batches[id])
  {
    if id in s.batches {
      assert BatchInv(id, s.batches[id]);
      StepMoves(s, step, id);
      DiskSpendMove(id, s.batches[id], Next(s, step).batches[id], step);
    }
  }

  /** Disk never claims more spend than memory, for non-negative costs. */
  lemma {:induction false} DiskSpendNeverExceeds(states: seq<System>, steps: seq<Step>, k: nat, id: string)
    requires IsRun(states, steps) && k < |states| && NonNegativeCosts(steps)
    requires id in states[k].batches && states[k].batches[id].mem.Some? && states[k].batches[id].disk.Some?
    ensures
      var b := states[k].batches[id];
      && |b.mem.value.branches| == |b.disk.value.branches|
      && forall i :: 0 <= i < |b.disk.value.branches| ==> b.disk.value.branches[i].spent <= b.mem.value.branches[i].spent
  {
    DiskSpendOverRun(states, steps, k, id);
    RunKeepsInv(states, steps, k);
    assert BatchInv(id, states[k].batches[id]);
    ReconcileLaws(states[k].batches[id].disk.value);
  }

  lemma {:induction false} DiskSpendOverRun(states: seq<System>, steps: seq<Step>, k: nat, id: string)
    requires IsRun(states, steps) && k < |states| && NonNegativeCosts(steps)
    ensures id in states[k].batches ==> DiskSpendBelow(states[k].batches[id])
  {
    hide Next, Inv, Enabled;
    if k > 0 {
      DiskSpendOverRun(states, steps, k - 1, id);
      RunKeepsInv(states, steps, k - 1);
      assert steps[k - 1].FoldSpend? ==> steps[k - 1].cost >= 0.0;
      DiskSpendStep(states[k - 1], steps[k - 1], id);
    }
  }

  // ---- Permits, exactly-once finalization, progress -----------------------

  /** In every state of every run, free permits and executing branches of all batches add up to four. */
  lemma PermitsConserved(states: seq<System>, steps: seq<Step>, k: nat)
    requires IsRun(states, steps) && k < |states|
    ensures 0 <= states[k].permits
    ensures states[k].permits + |ExecutingBranches(states[k])| == 4
  {
    RunKeepsInv(states, steps, k);
  }

  function Finalizations(steps: seq<Step>, id: string, i: nat): nat {
    if steps == [] then 0
    else
      var last := steps[|steps| - 1];
      Finalizations(steps[..|steps| - 1], id, i) + if Finalizes(last, id, i) then 1 else 0
  }

  /** `n` finalizations of branch `i` fit the batch state: one if its task is finalized, none before, at most one after a crash. */
  ghost predicate FinalizationsFit(b: BatchState, i: nat, n: nat) {
    match b.runner
    case NoRunner => n <= 1
    case Registered => n == 0
    case Persisted => n == 0
    case Spawned(tasks) => n == if i < |tasks| && tasks[i].Finalized? then 1 else 0
  }

  predicate Finalizes(step: Step, id: string, i: nat) {
    step.FinalizeBranch? && step.id == id && step.i == i
  }

  lemma FinalizationsStep(s: System, step: Step, id: string, i: nat, n: nat)
    requires Enabled(s, step) && n <= 1
    requires if id in s.batches then FinalizationsFit(s.batches[id], i, n) else n == 0
    ensures
      var n' := n + if Finalizes(step, id, i) then 1 else 0;
      && n' <= 1
      && if id in Next(s, step).batches then FinalizationsFit(Next(s, step).batches[id], i, n') else n' == 0
  {
    if id in s.batches {
      hide Next, Enabled;
      StepMoves(s, step, id);
    }
  }

  /**
   Each branch is finalized at most once in any run; in a process that spawned
   it, it was finalized exactly when its task says so.
   */
  lemma {:induction false} FinalizedOnce(states: seq<System>, steps: seq<Step>, k: nat, id: string, i: nat)
    requires IsRun(states, steps) && k < |states|
    ensures Finalizations(steps[..k], id, i) <= 1
    ensures if id in states[k].batches then FinalizationsFit(states[k].batches[id], i, Finalizations(steps[..k], id, i))
            else Finalizations(steps[..k], id, i) == 0
  {
    hide Next, Enabled;
    if k > 0 {
      FinalizedOnce(states, steps, k - 1, id, i);
      assert steps[..k][..k - 1] == steps[..k - 1];
      FinalizationsStep(states[k - 1], steps[k - 1], id, i, Finalizations(steps[..k - 1], id, i));
    }
  }

  /** The recorded outcome of a finalized branch is the one its engine run was observed to have. */
  lemma RecordedOutcome(states: seq<System>, steps: seq<Step>, k: nat, id: string, i: nat)
    requires IsRun(states, steps) && k < |states| && LiveTask(states[k], id, i)
    ensures
      var t, r := TaskAt(states[k], id, i), states[k].batches[id].mem.value;
      && i < |r.branches|
      && (t.Finalized? <==> !r.branches[i].status.BranchRunning?)
      && (t.Finalized? ==>
            && r.branches[i].status == (if t.obs.completed then BranchCompleted else BranchFailed)
            && (r.branches[i].error == None <==> t.obs.error == None)
            && (t.obs.error.Some? && |t.obs.error.value| <= 500 ==> r.branches[i].error == t.obs.error)
            && (t.obs.error.Some? && |t.obs.error.value| > 500 ==> r.branches[i].error == Some(t.obs.error.value[..500] + "\U{2026}"))
            && r.branches[i].summary == t.summary
            && r.branches[i].verification.Some? && VerificationMatches(r.branches[i].verification.value, t.obs))
  {
    RunKeepsInv(states, steps, k);
    assert BatchInv(id, states[k].batches[id]);
    var b := states[k].batches[id];
    assert TaskMatches(b.runner.tasks[i], b.mem.value.branches[i]);
  }

  function Weight(t: Task): nat {
    match t
    case Queued => 3
    case Executing => 2
    case Observed(_) => 1
    case Finalized(_, _) => 0
  }

  function Remaining(tasks: seq<Task>): nat {
    if tasks == [] then 0 else Weight(tasks[0]) + Remaining(tasks[1..])
  }

  lemma {:induction false} RemainingUpdate(tasks: seq<Task>, i: nat, t: Task)
    requires i < |tasks|
    ensures Remaining(tasks[i := t]) == Remaining(tasks) - Weight(tasks[i]) + Weight(t)
  {
    if i == 0 {
      assert tasks[0 := t][1..] == tasks[1..];
    } else {
      RemainingUpdate(tasks[1..], i - 1, t);
      assert tasks[i := t][1..] == tasks[1..][i - 1 := t];
    }
  }

  lemma {:induction false} RemainingBounds(tasks: seq<Task>)
    ensures Remaining(tasks) <= 3 * |tasks|
    ensures Remaining(tasks) == 0 <==> AllFinalized(tasks)
  {
    if tasks != [] {
      RemainingBounds(tasks[1..]);
      assert forall i :: 0 <= i < |tasks[1..]| ==> tasks[1..][i] == tasks[i + 1];
      assert AllFinalized(tasks) <==> tasks[0].Finalized? && AllFinalized(tasks[1..]) by {
        if tasks[0].Finalized? && AllFinalized(tasks[1..]) {
          forall i | 0 <= i < |tasks| ensures tasks[i].Finalized? {
            if i > 0 { assert tasks[i] == tasks[1..][i - 1]; }
          }
        }
      }
    }
  }

  lemma {:induction false} RemainingQueued(n: nat)
    ensures Remaining(seq(n, _ => Queued)) == 3 * n
  {
    if n > 0 {
      RemainingQueued(n - 1);
      assert seq(n, _ => Queued)[1..] == seq(n - 1, _ => Queued);
    }
  }

  predicate IsTaskStep(step: Step, id: string) {
    (step.AcquirePermit? || step.QueueError? || step.EngineEnds? || step.FinalizeBranch?) && step.id == id
  }

  /** The measure of a live batch drops at its own task steps and stands still at every other step but a crash. */
  lemma RemainingMove(id: string, b: BatchState, b': BatchState, step: Step)
    requires BatchMove(id, b, b', step) && b.runner.Spawned?
    ensures if step.Restart? then b'.runner.NoRunner?
            else b'.runner.Spawned? && |b'.runner.tasks| == |b.runner.tasks|
                 && if IsTaskStep(step, id) then Remaining(b'.runner.tasks) < Remaining(b.runner.tasks)
                    else b'.runner.tasks == b.runner.tasks
  {
    if IsTaskStep(step, id) {
      RemainingUpdate(b.runner.tasks, step.i, b'.runner.tasks[step.i]);
    }
  }

  function TaskSteps(steps: seq<Step>, id: string): nat {
    if steps == [] then 0
    else TaskSteps(steps[..|steps| - 1], id) + if IsTaskStep(steps[|steps| - 1], id) then 1 else 0
  }

  /** `n` task steps taken so far fit the batch state; after a crash the disk record still tells the number of branches. */
  ghost predicate TaskStepsFit(b: BatchState, n: nat) {
    match b.runner
    case NoRunner => n <= if b.disk.Some? then 3 * |b.disk.value.branches| else 0
    case Registered => n == 0
    case Persisted => n == 0
    case Spawned(tasks) => n + Remaining(tasks) <= 3 * |tasks|
  }

  lemma TaskStepsMove(id: string, b: BatchState, b': BatchState, step: Step, n: nat)
    requires BatchInv(id, b) && BatchMove(id, b, b', step) && TaskStepsFit(b, n)
    ensures TaskStepsFit(b', n + if IsTaskStep(step, id) then 1 else 0)
  {
    if b.disk.Some? { ReconcileLaws(b.disk.value); }
    if b.runner.Spawned? {
      RemainingMove(id, b, b', step);
    } else if step.Spawn? && step.id == id {
      RemainingQueued(|b.mem.value.branches|);
    }
  }

  lemma TaskStepsStep(s: System, step: Step, id: string, n: nat)
    requires Inv(s) && Enabled(s, step)
    requires if id in s.batches then TaskStepsFit(s.batches[id], n) else n == 0
    ensures
      var n' := n + if IsTaskStep(step, id) then 1 else 0;
      if id in Next(s, step).batches then TaskStepsFit(Next(s, step).batches[id], n') else n' == 0
  {
    if id in s.batches {
      hide Next, Enabled, TaskStepsFit;
      assert BatchInv(id, s.batches[id]);
      StepMoves(s, step, id);
      TaskStepsMove(id, s.batches[id], Next(s, step).batches[id], step, n);
    }
  }

  lemma {:induction false} TaskStepsFitRun(states: seq<System>, steps: seq<Step>, k: nat, id: string)
    requires IsRun(states, steps) && k < |states|
    ensures if id in states[k].batches then TaskStepsFit(states[k].batches[id], TaskSteps(steps[..k], id))
            else TaskSteps(steps[..k], id) == 0
  {
    hide Next, Enabled, Inv, TaskStepsFit;
    if k > 0 {
      TaskStepsFitRun(states, steps, k - 1, id);
      RunKeepsInv(states, steps, k - 1);
      assert steps[..k][..k - 1] == steps[..k - 1];
      TaskStepsStep(states[k - 1], steps[k - 1], id, TaskSteps(steps[..k - 1], id));
    }
  }

  /**
   A batch of n branches takes at most 3n task steps in any run, however the
   others interleave, crashes included; a live one has as many left as its
   measure says.
   */
  lemma TaskStepsBounded(states: seq<System>, steps: seq<Step>, k: nat, id: string)
    requires IsRun(states, steps) && k < |states|
    requires id in states[k].batches && Known(states[k].batches[id]).Some?
    ensures TaskSteps(steps[..k], id) <= 3 * |Known(states[k].batches[id]).value.branches|
    ensures states[k].batches[id].runner.Spawned? ==>
              TaskSteps(steps[..k], id) + Remaining(states[k].batches[id].runner.tasks)
                <= 3 * |Known(states[k].batches[id]).value.branches|
  {
    TaskStepsFitRun(states, steps, k, id);
    RunKeepsInv(states, steps, k);
    var b := states[k].batches[id];
    assert BatchInv(id, b);
    if b.disk.Some? { ReconcileLaws(b.disk.value); }
  }

  predicate IsAnyTaskStep(step: Step) {
    step.AcquirePermit? || step.QueueError? || step.EngineEnds? || step.FinalizeBranch?
  }

  /** With no permit free, some branch of some batch is executing. */
  lemma PermitHolder(s: System) returns (id: string, i: nat)
    requires Inv(s) && s.permits == 0
    ensures LiveTask(s, id, i) && TaskAt(s, id, i).Executing?
  {
    assert |ExecutingBranches(s)| == 4;
    var p :| p in ExecutingBranches(s);
    id, i := p.0, p.1;
    assert (id, i) in ExecutingBranches(s);
    assert BatchInv(id, s.batches[id]);
  }

  /**
   No deadlock: while a live batch has unfinished tasks, one of them can move on,
   or all permits are taken and a branch that holds one can end.
   */
  lemma TasksNeverStuck(states: seq<System>, steps: seq<Step>, k: nat, id: string) returns (step: Step)
    requires IsRun(states, steps) && k < |states|
    requires id in states[k].batches && states[k].batches[id].runner.Spawned?
    requires Remaining(states[k].batches[id].runner.tasks) > 0
    ensures Enabled(states[k], step)
    ensures IsTaskStep(step, id) || (states[k].permits == 0 && step.EngineEnds?)
  {
    hide Next, Inv;
    RunKeepsInv(states, steps, k);
    var s := states[k];
    SpawnedHasRecord(s, id);
    var holder, j := "", 0;
    if s.permits == 0 {
      holder, j := PermitHolder(s);
    }
    step := TaskStepFor(s, id, holder, j);
  }

  lemma SpawnedHasRecord(s: System, id: string)
    requires Inv(s) && id in s.batches && s.batches[id].runner.Spawned?
    ensures s.batches[id].mem.Some? && s.permits >= 0
  {
    assert BatchInv(id, s.batches[id]);
  }

  lemma TaskStepFor(s: System, id: string, holder: string, j: nat) returns (step: Step)
    requires id in s.batches && s.batches[id].runner.Spawned? && s.batches[id].mem.Some? && s.permits >= 0
    requires Remaining(s.batches[id].runner.tasks) > 0
    requires s.permits == 0 ==> LiveTask(s, holder, j) && TaskAt(s, holder, j).Executing?
    ensures Enabled(s, step)
    ensures IsTaskStep(step, id) || (s.permits == 0 && step.EngineEnds?)
  {
    var tasks := s.batches[id].runner.tasks;
    RemainingBounds(tasks);
    var i: nat :| i < |tasks| && !tasks[i].Finalized?;
    match tasks[i]
    case Observed(_) => step := FinalizeBranch(id, i, None, true);
    case Executing => step := EngineEnds(id, i, Observation(true, None, None));
    case Queued =>
      step := if s.permits > 0 then AcquirePermit(id, i) else EngineEnds(holder, j, Observation(true, None, None));
  }

  /** A live batch with no task left has left `running`. */
  lemma NoTaskLeftMeansSettled(states: seq<System>, steps: seq<Step>, k: nat, id: string)
    requires IsRun(states, steps) && k < |states|
    requires id in states[k].batches && states[k].batches[id].runner.Spawned?
    ensures states[k].batches[id].mem.Some?
    ensures Remaining(states[k].batches[id].runner.tasks) == 0 <==> AllTerminal(states[k].batches[id].mem.value.branches)
    ensures Remaining(states[k].batches[id].runner.tasks) == 0 ==> !states[k].batches[id].mem.value.status.Running?
  {
    RunKeepsInv(states, steps, k);
    var b := states[k].batches[id];
    assert BatchInv(id, b);
    RemainingBounds(b.runner.tasks);
    forall i | 0 <= i < |b.runner.tasks| ensures b.runner.tasks[i].Finalized? <==> !b.mem.value.branches[i].status.BranchRunning? {
      assert TaskMatches(b.runner.tasks[i], b.mem.value.branches[i]);
    }
  }

  /** Once no task step is enabled, in any state of any run, every batch started in this process has left `running`. */
  lemma QuietMeansSettled(states: seq<System>, steps: seq<Step>, k: nat, id: string)
    requires IsRun(states, steps) && k < |states|
    requires forall step :: Enabled(states[k], step) ==> !IsAnyTaskStep(step)
    requires id in states[k].batches && states[k].batches[id].runner.Spawned?
    ensures states[k].batches[id].mem.Some? && AllTerminal(states[k].batches[id].mem.value.branches)
    ensures !states[k].batches[id].mem.value.status.Running?
  {
    hide Next, Inv, Enabled;
    if Remaining(states[k].batches[id].runner.tasks) > 0 {
      var step := TasksNeverStuck(states, steps, k, id);
      assert false;
    }
    NoTaskLeftMeansSettled(states, steps, k, id);
  }

  // ---- The way of one batch and of one branch ------------------------------

  /** From any state: a fresh batch can be registered, persisted and spawned, in this order, and its record is then on disk as start wrote it. */
  lemma StartGoesThrough(s: System, r: BatchRun)
    requires r.batchId !in s.batches && FreshRecord(r)
    ensures
      var id := r.batchId;
      && Enabled(s, Register(r)) && var s1 := Next(s, Register(r));
      && s1 == s.(batches := s.batches[id := BatchState(Some(r), None, Registered)])
      && Enabled(s1, FirstPersist(id)) && var s2 := Next(s1, FirstPersist(id));
      && s2 == s.(batches := s.batches[id := BatchState(Some(r), Some(r), Persisted)])
      && Enabled(s2, Spawn(id))
      && Next(s2, Spawn(id)) == s.(batches := s.batches[id := BatchState(Some(r), Some(r), Spawned(seq(|r.branches|, _ => Queued)))])
  {
  }

  /** One live batch differs, by its live record and by the state of one task. */
  ghost predicate TaskBecomes(s: System, s': System, id: string, i: nat, t: Task, r: BatchRun)
    requires LiveTask(s, id, i)
  {
    var b := s.batches[id];
    s'.batches == s.batches[id := BatchState(Some(r), b.disk, Spawned(b.runner.tasks[i := t]))]
    && s'.inbox == s.inbox && s'.attempts == s.attempts
  }

  /** A queued branch takes a permit whenever one is free; nothing else changes. */
  lemma PermitIsTaken(s: System, id: string, i: nat)
    requires LiveTask(s, id, i) && TaskAt(s, id, i).Queued? && s.permits > 0
    ensures Enabled(s, AcquirePermit(id, i))
    ensures
      var s' := Next(s, AcquirePermit(id, i));
      s'.permits == s.permits - 1 && TaskBecomes(s, s', id, i, Executing, s.batches[id].mem.value)
  {
  }

  /** An executing branch adds any cost to its own row in memory; nothing else changes, the disk neither. */
  lemma SpendIsAdded(s: System, id: string, i: nat, cost: real)
    requires Inv(s) && LiveTask(s, id, i) && TaskAt(s, id, i).Executing?
    ensures Enabled(s, FoldSpend(id, i, cost))
    ensures
      var r := s.batches[id].mem.value;
      i < |r.branches| &&
      var spent := r.(branches := r.branches[i := r.branches[i].(spent := r.branches[i].spent + cost)]);
      Next(s, FoldSpend(id, i, cost)) == s.(batches := s.batches[id := s.batches[id].(mem := Some(spent))])
  {
    FoldedInMemory(s, id, i, cost);
    RowsInPlace(s, id, i);
    SpendOnRow(s.batches[id].mem.value, i, cost);
    hide Inv, WithSpend, Next, Enabled;
  }

  lemma FoldedInMemory(s: System, id: string, i: nat, cost: real)
    requires LiveTask(s, id, i) && TaskAt(s, id, i).Executing?
    ensures Enabled(s, FoldSpend(id, i, cost))
    ensures Next(s, FoldSpend(id, i, cost)) ==
            s.(batches := s.batches[id := s.batches[id].(mem := Some(WithSpend(s.batches[id].mem.value, i, cost)))])
  {
  }

  lemma RowsInPlace(s: System, id: string, i: nat)
    requires Inv(s) && LiveTask(s, id, i)
    ensures i < |s.batches[id].mem.value.branches|
    ensures forall j :: 0 <= j < |s.batches[id].mem.value.branches| ==> s.batches[id].mem.value.branches[j].index == j
  {
    assert BatchInv(id, s.batches[id]);
  }

  lemma SpendOnRow(r: BatchRun, i: nat, cost: real)
    requires i < |r.branches| && forall j :: 0 <= j < |r.branches| ==> r.branches[j].index == j
    ensures WithSpend(r, i, cost) == r.(branches := r.branches[i := r.branches[i].(spent := r.branches[i].spent + cost)])
  {
    FindIsPosition(r.branches, i);
  }

  /** Its engine can end in any way, and gives the permit back. */
  lemma PermitIsGivenBack(s: System, id: string, i: nat, obs: Observation)
    requires LiveTask(s, id, i) && TaskAt(s, id, i).Executing?
    ensures Enabled(s, EngineEnds(id, i, obs))
    ensures
      var s' := Next(s, EngineEnds(id, i, obs));
      s'.permits == s.permits + 1 && TaskBecomes(s, s', id, i, Observed(obs), s.batches[id].mem.value)
  {
  }

  /** A queue that fails leaves the permits alone, and the branch failed with that message. */
  lemma QueueFailureIsObserved(s: System, id: string, i: nat, message: string)
    requires LiveTask(s, id, i) && TaskAt(s, id, i).Queued?
    ensures Enabled(s, QueueError(id, i, message))
    ensures
      var s' := Next(s, QueueError(id, i, message));
      s'.permits == s.permits && TaskBecomes(s, s', id, i, Observed(Observation(false, Some(message), None)), s.batches[id].mem.value)
  {
  }

  /** An observed branch can be finalized; memory and disk then hold the record `FinalizeMeans` describes, and no permit moves. */
  lemma ObservedIsFinalized(s: System, id: string, i: nat, summary: Option<DiffSummary>, appendOk: bool)
    requires LiveTask(s, id, i) && TaskAt(s, id, i).Observed?
    ensures Enabled(s, FinalizeBranch(id, i, summary, appendOk))
    ensures
      var s', b, obs := Next(s, FinalizeBranch(id, i, summary, appendOk)), s.batches[id], TaskAt(s, id, i).obs;
      var write := FinalizeWrite(b.mem.value, s.inbox, i, obs, summary, appendOk);
      && s'.permits == s.permits && s'.inbox == write.inbox
      && s'.batches == s.batches[id := BatchState(Some(write.record), Some(write.record), Spawned(b.runner.tasks[i := Finalized(obs, summary)]))]
  {
    hide FinalizeWrite;
  }

  // ---- Inbox -------------------------------------------------------------

  /** A batch's completion item is attempted exactly by the step that finalizes its last branch, unless it was discarded. */
  lemma AttemptIsLastFinalize(states: seq<System>, steps: seq<Step>, k: nat)
    requires IsRun(states, steps) && k < |steps|
    ensures
      var s, s', step := states[k], states[k + 1], steps[k];
      && (s'.attempts != s.attempts <==>
            && step.FinalizeBranch?
            && !s.batches[step.id].mem.value.status.Discarded?
            && forall j :: 0 <= j < |s.batches[step.id].runner.tasks| && j != step.i ==> s.batches[step.id].runner.tasks[j].Finalized?)
      && (s'.attempts != s.attempts ==> s'.attempts == s.attempts + multiset{step.id})
      && (s'.attempts != s.attempts && step.appendOk ==>
            var r, r' := s.batches[step.id].mem.value, s'.batches[step.id].mem.value;
            && s'.inbox == s.inbox + [InboxItem(step.id, r.title, CompletionText(r'.branches))]
            && r'.inboxItem == Some(|s.inbox|))
      && (s'.attempts == s.attempts || !step.appendOk ==> |s'.inbox| == |s.inbox|)
  {
    RunKeepsInv(states, steps, k);
    AttemptStep(states[k], steps[k]);
  }

  lemma AttemptStep(s: System, step: Step)
    requires Inv(s) && Enabled(s, step)
    ensures
      var s' := Next(s, step);
      && (s'.attempts != s.attempts <==>
            && step.FinalizeBranch?
            && !s.batches[step.id].mem.value.status.Discarded?
            && forall j :: 0 <= j < |s.batches[step.id].runner.tasks| && j != step.i ==> s.batches[step.id].runner.tasks[j].Finalized?)
      && (s'.attempts != s.attempts ==> s'.attempts == s.attempts + multiset{step.id})
      && (s'.attempts != s.attempts && step.appendOk ==>
            var r, r' := s.batches[step.id].mem.value, s'.batches[step.id].mem.value;
            && s'.inbox == s.inbox + [InboxItem(step.id, r.title, CompletionText(r'.branches))]
            && r'.inboxItem == Some(|s.inbox|))
      && (s'.attempts == s.attempts || !step.appendOk ==> |s'.inbox| == |s.inbox|)
  {
    if step.FinalizeBranch? {
      AttemptsIff(s, step.id, step.i, step.summary);
      hide Inv;
      assert (s.attempts + multiset{step.id})[step.id] == s.attempts[step.id] + 1;
    }
  }

  lemma AttemptsIff(s: System, id: string, i: nat, summary: Option<DiffSummary>)
    requires Inv(s) && LiveTask(s, id, i) && TaskAt(s, id, i).Observed?
    ensures s.batches[id].mem.value.batchId == id
    ensures AttemptsInbox(s.batches[id].mem.value, i, TaskAt(s, id, i).obs, summary) <==>
            && !s.batches[id].mem.value.status.Discarded?
            && forall j :: 0 <= j < |s.batches[id].runner.tasks| && j != i ==> s.batches[id].runner.tasks[j].Finalized?
  {
    var b := s.batches[id];
    assert BatchInv(id, b) && HistoryInv(id, b, s);
    LastFinalize(id, b, i, summary);
    OutcomeStatus(b.mem.value, i, b.runner.tasks[i].obs, summary);
    assert b.mem.value.status.Running? ==> b.disk.value.status.Running?;
  }

  lemma LastFinalize(id: string, b: BatchState, i: nat, summary: Option<DiffSummary>)
    requires BatchInv(id, b) && LiveAt(b, i) && b.runner.tasks[i].Observed?
    ensures BecameTerminal(b.mem.value, i, b.runner.tasks[i].obs, summary) <==>
            && !b.mem.value.status.Discarded?
            && forall j :: 0 <= j < |b.runner.tasks| && j != i ==> b.runner.tasks[j].Finalized?
  {
    var r, tasks, obs := b.mem.value, b.runner.tasks, b.runner.tasks[i].obs;
    assert TaskMatches(tasks[i], r.branches[i]);
    OutcomeKeepsRecord(id, r, i, obs, summary);
    var after := WithFinalBranch(r, i, obs, summary).branches;
    assert r.status.Running? <==> !r.status.Discarded? by {
      assert r.branches[i].status.BranchRunning?;
    }
    forall j | 0 <= j < |tasks| && j != i
      ensures tasks[j].Finalized? <==> !after[j].status.BranchRunning?
    {
      assert TaskMatches(tasks[j], r.branches[j]);
    }
    assert !after[i].status.BranchRunning?;
  }

  /** Over any run, restarts included, a batch is attempted at most once and owns at most one inbox item. */
  lemma InboxAtMostOnce(states: seq<System>, steps: seq<Step>, k: nat, id: string)
    requires IsRun(states, steps) && k < |states|
    ensures states[k].attempts[id] <= 1
    ensures forall m, n ::
              (0 <= m < |states[k].inbox| && states[k].inbox[m].source == id
               && 0 <= n < |states[k].inbox| && states[k].inbox[n].source == id)
              ==> m == n
    ensures (exists m :: 0 <= m < |states[k].inbox| && states[k].inbox[m].source == id) ==> states[k].attempts[id] == 1
  {
    RunKeepsInv(states, steps, k);
    var s := states[k];
    if id in s.batches {
      assert HistoryInv(id, s.batches[id], s);
    }
  }

  /** Everything but the text of batch `id`'s own item is as before. */
  ghost predicate RefreshedInPlace(before: seq<InboxItem>, after: seq<InboxItem>, id: string) {
    && |after| == |before|
    && forall m :: 0 <= m < |before| ==>
         && after[m] == before[m].(text := after[m].text)
         && (after[m] != before[m] ==> before[m].source == id)
  }

  lemma RefreshTouchesOneItem(s: System, id: string, text: InboxText)
    requires Inv(s) && id in s.batches
    ensures
      var after := Refreshed(s.inbox, ItemOf(s.batches[id]), text);
      && RefreshedInPlace(s.inbox, after, id)
      && forall m :: 0 <= m < |after| && after[m].source == id ==> after[m].text == text
  {
    assert HistoryInv(id, s.batches[id], s);
  }

  lemma AdoptFacts(id: string, b: BatchState, s: System, index: nat)
    requires BatchInv(id, b) && HistoryInv(id, b, s)
    requires Loaded(b).mem.Some? && AdoptCheck(Loaded(b).mem.value, index).Ok?
    ensures
      var r := Loaded(b).mem.value;
      && index < |r.branches| && r.count > 0 && r.inboxItem == ItemOf(b)
      && AdoptCheck(r, index).value == r.branches[index]
  {
    LoadedKeepsBatch(id, b);
    LoadedKeepsItem(id, b, s);
    AdoptKeepsRecord(id, Loaded(b).mem.value, index);
  }

  /** The record a command on this batch works on: the live one, or the disk's, reconciled. */
  ghost predicate WorksOn(b: BatchState, r: BatchRun) {
    b.mem == Some(r) || (b.mem == None && b.disk.Some? && r == Reconciled(b.disk.value))
  }

  /**
   The adopt step, field by field: it goes through exactly when the batch is
   settled, not adopted or discarded, its first row with the index is completed,
   and git merged. Otherwise nothing changes but that the batch is loaded.
   */
  lemma AdoptStepMeans(s: System, id: string, index: nat, merge: Merge, r: BatchRun)
    requires id in s.batches && WorksOn(s.batches[id], r)
    ensures Enabled(s, Adopt(id, index, merge))
    ensures
      var s', b := Next(s, Adopt(id, index, merge)), s.batches[id];
      var after := r.(status := Adopted, adoptedIndex := Some(index));
      if
        && r.status != Running && r.status != Adopted && r.status != Discarded && merge == Merged
        && exists k :: FirstAt(r.branches, index, k) && r.branches[k].status == BranchCompleted
      then s' == s.(batches := s.batches[id := BatchState(Some(after), Some(after), b.runner)], inbox := s'.inbox)
      else s' == s.(batches := s.batches[id := BatchState(Some(r), b.disk, b.runner)])
  {
    AdoptCheckMeans(r, index);
    hide FirstAt, AdoptCheck, Reconciled;
  }

  /** The discard step: it goes through exactly when the batch is neither adopted nor discarded. */
  lemma DiscardStepMeans(s: System, id: string, removed: nat, skipped: nat, r: BatchRun)
    requires id in s.batches && WorksOn(s.batches[id], r)
    ensures Enabled(s, Discard(id, removed, skipped))
    ensures
      var s', b := Next(s, Discard(id, removed, skipped)), s.batches[id];
      var after := r.(status := Discarded);
      if r.status != Adopted && r.status != Discarded
      then s' == s.(batches := s.batches[id := BatchState(Some(after), Some(after), b.runner)], inbox := s'.inbox)
      else s' == s.(batches := s.batches[id := BatchState(Some(r), b.disk, b.runner)])
  {
    hide Reconciled;
  }

  /** A successful adopt gives the batch's inbox item its adoption text and touches nothing else in the inbox. */
  lemma AdoptRefreshesItem(s: System, id: string, index: nat)
    requires Inv(s) && id in s.batches && Loaded(s.batches[id]).mem.Some?
    requires AdoptCheck(Loaded(s.batches[id]).mem.value, index).Ok?
    ensures
      var r, after := Loaded(s.batches[id]).mem.value, AdoptNext(s, id, index, Merged).inbox;
      && RefreshedInPlace(s.inbox, after, id)
      && index < |r.branches| && r.count > 0
      && forall m :: 0 <= m < |after| && after[m].source == id ==>
           after[m].text == AdoptedText(index, r.branches[index].name, r.count - 1)
  {
    assert BatchInv(id, s.batches[id]) && HistoryInv(id, s.batches[id], s);
    AdoptFacts(id, s.batches[id], s, index);
    var r := Loaded(s.batches[id]).mem.value;
    var text := AdoptedText(index, r.branches[index].name, r.count - 1);
    assert AdoptNext(s, id, index, Merged).inbox == Refreshed(s.inbox, ItemOf(s.batches[id]), text);
    RefreshTouchesOneItem(s, id, text);
  }

  /** A successful discard gives the item its counts and touches nothing else in the inbox. */
  lemma DiscardRefreshesItem(s: System, id: string, removed: nat, skipped: nat)
    requires Inv(s) && id in s.batches && Loaded(s.batches[id]).mem.Some?
    requires DiscardAllowed(Loaded(s.batches[id]).mem.value)
    ensures
      var after := DiscardNext(s, id, removed, skipped).inbox;
      && RefreshedInPlace(s.inbox, after, id)
      && forall m :: 0 <= m < |after| && after[m].source == id ==> after[m].text == DiscardedText(removed, skipped)
  {
    assert BatchInv(id, s.batches[id]) && HistoryInv(id, s.batches[id], s);
    LoadedKeepsItem(id, s.batches[id], s);
    RefreshTouchesOneItem(s, id, DiscardedText(removed, skipped));
  }

  /**
   A load makes the record it works on live and writes nothing; a listing does so
   for every batch, and puts a record that was not live back on disk; an unknown
   id changes nothing.
   */
  lemma LoadStepsMean(s: System, id: string)
    ensures Enabled(s, GetOrLoad(id)) && Enabled(s, List)
    ensures id !in s.batches ==> Next(s, GetOrLoad(id)) == s
    ensures forall r :: id in s.batches && WorksOn(s.batches[id], r) ==>
              Next(s, GetOrLoad(id)) == s.(batches := s.batches[id := s.batches[id].(mem := Some(r))])
    ensures Next(s, List) == s.(batches := Next(s, List).batches) && Next(s, List).batches.Keys == s.batches.Keys
    ensures forall r :: id in s.batches && WorksOn(s.batches[id], r) ==>
              Next(s, List).batches[id] ==
                BatchState(Some(r), if s.batches[id].mem.Some? then s.batches[id].disk else Some(r), s.batches[id].runner)
  {
    hide Reconciled;
  }

  /** A crash can come at any moment: disk, inbox and history stay, nothing is live, and all four permits are free. */
  lemma RestartMeans(s: System, id: string)
    ensures Enabled(s, Restart)
    ensures Next(s, Restart) == System(Next(s, Restart).batches, 4, s.inbox, s.attempts) && Next(s, Restart).batches.Keys == s.batches.Keys
    ensures id in s.batches ==> Next(s, Restart).batches[id] == BatchState(None, s.batches[id].disk, NoRunner)
  {
  }

  // ---- Listing and loading are not atomic in the source ------------------------

  /** The disk record is reconciled, registered over whatever handle is there now, and written back. */
  function Reloaded(b: BatchState): BatchState {
    if b.disk.Some?
    then b.(mem := Some(Reconciled(b.disk.value)), disk := Some(Reconciled(b.disk.value)))
    else b
  }

  /** The second half of `list`, run against a snapshot `seen` of the live handles taken earlier. */
  function ListLoaded(s: System, seen: set<string>): System {
    s.(batches := map id | id in s.batches :: if id in seen then s.batches[id] else Reloaded(s.batches[id]))
  }

  /** The second half of `get_or_load`, once it found no live handle: registered, not written back. */
  function Overloaded(b: BatchState): BatchState {
    if b.disk.Some? then b.(mem := Some(Reconciled(b.disk.value))) else b
  }

  predicate RunsLive(b: BatchState) {
    b.mem.Some? && b.disk.Some? && b.mem.value.status.Running?
  }

  /** Replacing the live record by the reconciled disk record breaks a batch exactly when it was running. */
  lemma ReloadKeepsBatchIff(id: string, b: BatchState)
    requires BatchInv(id, b)
    ensures BatchInv(id, Reloaded(b)) <==> !RunsLive(b)
    ensures BatchInv(id, Overloaded(b)) <==> !RunsLive(b)
  {
    LoadedKeepsBatch(id, b);
    if b.disk.Some? {
      ReconcileLaws(b.disk.value);
      if RunsLive(b) {
        ReloadBreaks(id, b);
      } else if b.mem.Some? && b.runner.Spawned? {
        ReloadOfSettled(id, b);
      }
    }
  }

  lemma ReloadOfSettled(id: string, b: BatchState)
    requires BatchInv(id, b) && b.mem.Some? && b.disk.Some? && b.runner.Spawned? && !b.mem.value.status.Running?
    ensures Reloaded(b) == Overloaded(b) == b.(mem := b.disk)
    ensures BatchInv(id, b.(mem := b.disk))
  {
    ReconcileLaws(b.disk.value);
    var tasks := b.runner.tasks;
    forall i | 0 <= i < |tasks|
      ensures TaskMatches(tasks[i], b.disk.value.branches[i])
    {
      assert TaskMatches(tasks[i], b.mem.value.branches[i]);
      assert b.mem.value.branches[i] == b.disk.value.branches[i].(spent := b.mem.value.branches[i].spent);
    }
  }

  lemma ReloadBreaks(id: string, b: BatchState)
    requires BatchInv(id, b) && RunsLive(b)
    ensures Reconciled(b.disk.value).status in {Failed, PartiallyFailed}
    ensures !BatchInv(id, Reloaded(b)) && !BatchInv(id, Overloaded(b))
  {
    assert b.disk.value.status.Running?;
    ReconcileOfRunning(b.disk.value);
    ReconcileLaws(b.disk.value);
    var i :| 0 <= i < |b.mem.value.branches| && b.mem.value.branches[i].status.BranchRunning?;
    var r := Reconciled(b.disk.value);
    assert !r.branches[i].status.BranchRunning?;
    if b.runner.Spawned? {
      assert TaskMatches(b.runner.tasks[i], b.mem.value.branches[i]);
      assert !TaskMatches(b.runner.tasks[i], r.branches[i]);
    }
  }

  /** What is shown of such a batch: failed, although its branch tasks go on against the replaced handle. */
  lemma StaleListFailsLiveBatch(s: System, seen: set<string>, id: string)
    requires Inv(s) && id in s.batches && id !in seen && RunsLive(s.batches[id])
    ensures ListLoaded(s, seen).batches[id].mem.Some?
    ensures ListLoaded(s, seen).batches[id].mem.value.status in {Failed, PartiallyFailed}
    ensures ListLoaded(s, seen).batches[id].disk == ListLoaded(s, seen).batches[id].mem
  {
    assert BatchInv(id, s.batches[id]);
    ReloadBreaks(id, s.batches[id]);
  }

  /** Such a state is reached: snapshot, then start's register, persist and spawn, then the load half. */
  lemma StaleListIsReachable(r: BatchRun) returns (states: seq<System>, steps: seq<Step>)
    requires FreshRecord(r)
    ensures IsRun(states, steps) && |states| == 5 && states[0].batches == map[]
    ensures
      var last := states[4];
      && Inv(last) && r.batchId in last.batches && LiveTask(last, r.batchId, 0) && TaskAt(last, r.batchId, 0).Executing?
      && ListLoaded(last, states[0].batches.Keys).batches[r.batchId].mem.Some?
      && ListLoaded(last, states[0].batches.Keys).batches[r.batchId].mem.value.status.Failed?
  {
    var id := r.batchId;
    steps := [Register(r), FirstPersist(id), Spawn(id), AcquirePermit(id, 0)];
    var s1 := Next(Init(), steps[0]);
    var s2 := Next(s1, steps[1]);
    var s3 := Next(s2, steps[2]);
    var s4 := Next(s3, steps[3]);
    states := [Init(), s1, s2, s3, s4];
    RunKeepsInv(states, steps, 4);
    ReconcileOfRunning(r);
  }

  // ---- Adopt and discard check and write under separate locks in the source ------

  /** What the second half of an adopt whose checks passed earlier does to the batch: it does not look at the status again. */
  function LateAdopt(b: BatchState, index: nat): BatchState {
    if b.mem.Some? then Persist(b, AdoptedRecord(b.mem.value, index)) else b
  }

  /** What the second half of a discard whose check passed earlier does to the batch. */
  function LateDiscard(b: BatchState): BatchState {
    if b.mem.Some? then Persist(b, DiscardedRecord(b.mem.value)) else b
  }

  function AdoptionText(r: BatchRun, index: nat, name: string): InboxText {
    AdoptedText(index, name, if r.count == 0 then 0 else r.count - 1)
  }

  /** The second half of an adopt on the whole state; `name` is the branch name its first half read. */
  function LateAdoptNext(s: System, id: string, index: nat, name: string): System
    requires id in s.batches && s.batches[id].mem.Some?
  {
    var r := s.batches[id].mem.value;
    s.(batches := s.batches[id := LateAdopt(s.batches[id], index)],
       inbox := Refreshed(s.inbox, r.inboxItem, AdoptionText(r, index, name)))
  }

  /** The second half of a discard on the whole state. */
  function LateDiscardNext(s: System, id: string, removed: nat, skipped: nat): System
    requires id in s.batches && s.batches[id].mem.Some?
  {
    s.(batches := s.batches[id := LateDiscard(s.batches[id])],
       inbox := Refreshed(s.inbox, s.batches[id].mem.value.inboxItem, DiscardedText(removed, skipped)))
  }

  /** The batch has no item, or the item carries this text already. */
  predicate Carries(inbox: seq<InboxItem>, item: Option<nat>, text: InboxText) {
    item.Some? && item.value < |inbox| ==> inbox[item.value].text == text
  }

  lemma RefreshIsIdleIff(inbox: seq<InboxItem>, item: Option<nat>, text: InboxText)
    ensures Refreshed(inbox, item, text) == inbox <==> Carries(inbox, item, text)
  {
    if item.Some? && item.value < |inbox| {
      assert Refreshed(inbox, item, text)[item.value].text == text;
      if inbox[item.value].text == text {
        assert inbox[item.value := inbox[item.value].(text := text)] == inbox;
      }
    }
  }

  /** When every row is terminal, memory and disk of a settled batch are the same record. */
  lemma SettledIsMirrored(id: string, b: BatchState)
    requires BatchInv(id, b) && b.mem.Some? && !b.mem.value.status.Running? && AllTerminal(b.mem.value.branches)
    ensures !b.runner.Registered? && !b.runner.Persisted?
    ensures b.mem.value.status.Adopted? || b.mem.value.status.Discarded? ==> b.disk == b.mem
  {
    TerminalMeansMirrored(id, b);
    ReconcileLaws(b.disk.value);
    assert !b.mem.value.branches[0].status.BranchRunning?;
    if b.disk.value.status.Running? {
      AggregateMeaning(InterruptedBranches(b.disk.value.branches));
    }
  }

  /**
   An adopt that writes after its checks is the protocol's step, inbox included,
   exactly when the checks still pass, or the same branch was adopted meanwhile
   and the item says so.
   */
  lemma LateAdoptIsStepIff(s: System, id: string, index: nat)
    requires Inv(s) && id in s.batches && s.batches[id].mem.Some?
    requires index < |s.batches[id].mem.value.branches| && s.batches[id].mem.value.branches[index].status.BranchCompleted?
    ensures
      var r := s.batches[id].mem.value;
      var name := r.branches[index].name;
      (LateAdoptNext(s, id, index, name) == AdoptNext(s, id, index, Merged)) <==>
        (AdoptCheck(r, index).Ok? || (r.adoptedIndex == Some(index) && Carries(s.inbox, r.inboxItem, AdoptionText(r, index, name))))
  {
    var b := s.batches[id];
    var r := b.mem.value;
    var name := r.branches[index].name;
    assert BatchInv(id, b);
    LateAdoptIdleIff(id, b, index);
    FindIsPosition(r.branches, index);
    RefreshIsIdleIff(s.inbox, r.inboxItem, AdoptionText(r, index, name));
    hide BatchInv, Inv, Refreshed, Carries, LateAdopt;
    if AdoptCheck(r, index).Err? {
      assert AdoptNext(s, id, index, Merged).batches == s.batches;
      ReplaceIsIdle(s.batches, id, LateAdopt(b, index));
    } else {
      assert AdoptCheck(r, index).value.name == name;
      LateAdoptOfAllowed(s, id, index);
    }
  }

  lemma ReplaceIsIdle(batches: map<string, BatchState>, id: string, b: BatchState)
    requires id in batches
    ensures batches[id := b] == batches <==> b == batches[id]
  {
    assert batches[id := b][id] == b;
  }

  lemma LateAdoptOfAllowed(s: System, id: string, index: nat)
    requires id in s.batches && s.batches[id].mem.Some? && AdoptCheck(s.batches[id].mem.value, index).Ok?
    ensures LateAdoptNext(s, id, index, AdoptCheck(s.batches[id].mem.value, index).value.name) == AdoptNext(s, id, index, Merged)
  {
  }

  lemma LateAdoptIdleIff(id: string, b: BatchState, index: nat)
    requires BatchInv(id, b) && b.mem.Some?
    ensures LateAdopt(b, index) == b <==> b.mem.value.adoptedIndex == Some(index)
  {
    if b.mem.value.status.Adopted? { SettledIsMirrored(id, b); }
    hide BatchInv;
  }

  /** A late adopt keeps what every batch satisfies exactly when every row is terminal; an adopted record it keeps only for the same branch. */
  lemma LateAdoptFineIff(id: string, b: BatchState, index: nat)
    requires BatchInv(id, b) && b.mem.Some? && index < |b.mem.value.branches| && b.mem.value.branches[index].status.BranchCompleted?
    ensures BatchInv(id, LateAdopt(b, index)) <==> AllTerminal(b.mem.value.branches)
    ensures b.mem.value.status.Adopted? ==> (LateAdopt(b, index).mem == b.mem <==> b.mem.value.adoptedIndex == Some(index))
  {
    var after := LateAdopt(b, index);
    ReconcileLaws(after.mem.value);
    if AllTerminal(b.mem.value.branches) {
      assert !b.runner.Registered? && !b.runner.Persisted? by {
        assert !b.mem.value.branches[0].status.BranchRunning?;
      }
      assert RecordInv(id, after.mem.value);
    }
  }

  /**
   Two adopts of different branches: in every state where both pass their
   checks, the later write moves the adopted index to the other branch. Every
   batch rule still holds, so only the permanence of an adoption is lost.
   */
  lemma SecondAdoptWins(id: string, b: BatchState, first: nat, second: nat)
    requires BatchInv(id, b) && b.mem.Some? && first != second
    requires AdoptCheck(b.mem.value, first).Ok? && AdoptCheck(b.mem.value, second).Ok?
    ensures
      var adopted := Persist(b, AdoptedRecord(b.mem.value, first));
      && BatchInv(id, adopted) && adopted.mem.value.adoptedIndex == Some(first)
      && BatchInv(id, LateAdopt(adopted, second)) && LateAdopt(adopted, second).mem.value.adoptedIndex == Some(second)
  {
    AdoptKeepsBatch(id, b, first);
    AdoptKeepsBatch(id, b, second);
    var adopted := Persist(b, AdoptedRecord(b.mem.value, first));
    AdoptKeepsRecord(id, b.mem.value, second);
    LateAdoptFineIff(id, adopted, second);
  }

  /**
   A discard that writes after its check is the protocol's step, inbox included,
   exactly when the check still passes, or a discard came in between, nothing is
   in flight, and the item already carries these counts.
   */
  lemma LateDiscardIsStepIff(s: System, id: string, removed: nat, skipped: nat)
    requires Inv(s) && id in s.batches && s.batches[id].mem.Some?
    ensures
      var b := s.batches[id];
      (LateDiscardNext(s, id, removed, skipped) == DiscardNext(s, id, removed, skipped)) <==>
        (DiscardAllowed(b.mem.value)
         || (b.mem.value.status.Discarded? && b.disk == b.mem && Carries(s.inbox, b.mem.value.inboxItem, DiscardedText(removed, skipped))))
  {
    var b := s.batches[id];
    RefreshIsIdleIff(s.inbox, b.mem.value.inboxItem, DiscardedText(removed, skipped));
    hide Inv, Refreshed, Carries;
    var late, step := LateDiscardNext(s, id, removed, skipped), DiscardNext(s, id, removed, skipped);
    if !DiscardAllowed(b.mem.value) {
      assert step.batches == s.batches;
      ReplaceIsIdle(s.batches, id, LateDiscard(b));
    }
  }

  /** A late discard keeps what every batch satisfies exactly when no adopt came in between. */
  lemma LateDiscardFineIff(id: string, b: BatchState)
    requires BatchInv(id, b) && b.mem.Some?
    ensures BatchInv(id, LateDiscard(b)) <==> !b.mem.value.status.Adopted?
  {
    if !b.mem.value.status.Adopted? {
      if DiscardAllowed(b.mem.value) {
        DiscardKeepsBatch(id, b);
      } else {
        DiscardedIsOnDisk(id, b);
        assert DiscardedRecord(b.mem.value) == b.mem.value;
        ReconcileLaws(b.mem.value);
      }
    }
  }

  /** The batch after an adopt or a discard that passed its checks, as the protocol has it. */
  lemma SettledBatch(s: System, id: string, index: nat, removed: nat, skipped: nat)
    requires Inv(s) && id in s.batches && s.batches[id].mem.Some?
    requires AdoptCheck(s.batches[id].mem.value, index).Ok?
    ensures DiscardAllowed(s.batches[id].mem.value)
    ensures DiscardNext(s, id, removed, skipped).batches[id] == Persist(s.batches[id], DiscardedRecord(s.batches[id].mem.value))
    ensures AdoptNext(s, id, index, Merged).batches[id] == Persist(s.batches[id], AdoptedRecord(s.batches[id].mem.value, index))
  {
    hide Inv;
  }

  /**
   The family it goes wrong for: in every state where an adopt and a discard of
   one loaded batch both pass their checks, the one that writes last wins. A
   discarded batch is adopted after all, or an adopted one ends up discarded
   with its adopted index still set.
   */
  lemma LastWriterWins(s: System, id: string, index: nat, removed: nat, skipped: nat)
    requires Inv(s) && id in s.batches && s.batches[id].mem.Some?
    requires AdoptCheck(s.batches[id].mem.value, index).Ok?
    ensures Known(DiscardNext(s, id, removed, skipped).batches[id]).value.status.Discarded?
    ensures Known(LateAdopt(DiscardNext(s, id, removed, skipped).batches[id], index)).value.status.Adopted?
    ensures Known(AdoptNext(s, id, index, Merged).batches[id]).value.status.Adopted?
    ensures Known(LateDiscard(AdoptNext(s, id, index, Merged).batches[id])).value.status.Discarded?
    ensures Known(LateDiscard(AdoptNext(s, id, index, Merged).batches[id])).value.adoptedIndex == Some(index)
    ensures !BatchInv(id, LateDiscard(AdoptNext(s, id, index, Merged).batches[id]))
  {
    SettledBatch(s, id, index, removed, skipped);
    hide Inv, AdoptNext, DiscardNext;
  }
}
