/**
 The persisted record of a best-of-N batch and the functions that change it:
 aggregation, restart reconciliation, the terminal write of one branch, live
 spend, adopt and discard. The transition system (`BatchProtocol`) and the
 mutable registry (`BatchRegistry`) both act on records through these.
 */
module BatchRecord {
  import opened Common

  // The status strings of the source. `BranchOther`/`Other` stand for any text
  // a hand-edited record on disk may carry.
  datatype BranchStatus =
    | BranchRunning
    | BranchCompleted
    | BranchFailed
    | BranchOther(text: string)

  datatype BatchStatus =
    | Running
    | Completed
    | Failed
    | PartiallyFailed
    | Adopted
    | Discarded
    | Other(text: string)

  datatype DiffSummary = DiffSummary(filesChanged: nat, additions: nat, deletions: nat)

  datatype Verification = Verification(exitOk: bool, testsPassed: Option<nat>, testsTotal: Option<nat>)

  datatype Branch = Branch(
    index: nat,
    name: string,
    worktree: string,
    status: BranchStatus,
    error: Option<string>,
    summary: Option<DiffSummary>,
    spent: real,
    verification: Option<Verification>)

  datatype BatchRun = BatchRun(
    batchId: string,
    title: string,
    prompt: string,
    count: nat,
    status: BatchStatus,
    createdAtMs: int,
    branches: seq<Branch>,
    adoptedIndex: Option<nat>,
    baseBranch: string,
    baseCommit: string,
    repoRoot: string,
    inboxItem: Option<nat>)

  /** What one branch run produced; `tests` is the parsed summary of its last tool result. */
  datatype Observation = Observation(completed: bool, error: Option<string>, tests: Option<(nat, nat)>)

  /** The three texts the inbox item of a batch can carry. */
  datatype InboxText =
    | CompletionText(branches: seq<Branch>)
    | AdoptedText(index: nat, branchName: string, others: nat)
    | DiscardedText(removed: nat, skipped: nat)

  datatype InboxItem = InboxItem(source: string, title: string, text: InboxText)

  const RESTART_INTERRUPTED_ERROR := "\U{5E94}\U{7528}\U{91CD}\U{542F}\U{4E2D}\U{65AD}"
  const ERROR_MAX_CHARS: nat := 500

  // ---- Aggregation -------------------------------------------------------

  predicate AllTerminal(branches: seq<Branch>) {
    forall i :: 0 <= i < |branches| ==> !branches[i].status.BranchRunning?
  }

  function FailedCount(branches: seq<Branch>): (n: nat)
    ensures n <= |branches|
  {
    if branches == [] then 0
    else (if branches[0].status.BranchFailed? then 1 else 0) + FailedCount(branches[1..])
  }

  function AggregateStatus(branches: seq<Branch>): BatchStatus {
    var failed := FailedCount(branches);
    if failed == 0 then Completed
    else if failed == |branches| then Failed
    else PartiallyFailed
  }

  lemma {:induction false} FailedCountBounds(branches: seq<Branch>)
    ensures FailedCount(branches) == 0 <==>
            forall i :: 0 <= i < |branches| ==> !branches[i].status.BranchFailed?
    ensures FailedCount(branches) == |branches| <==>
            forall i :: 0 <= i < |branches| ==> branches[i].status.BranchFailed?
  {
    if branches != [] {
      FailedCountBounds(branches[1..]);
      assert forall i :: 0 <= i < |branches| ==> branches[i] == (if i == 0 then branches[0] else branches[1..][i - 1]);
      assert forall i :: 0 <= i < |branches[1..]| ==> branches[1..][i] == branches[i + 1];
    }
  }

  /** What the three aggregate values mean, both directions, for every list of branches. */
  lemma AggregateMeaning(branches: seq<Branch>)
    ensures AggregateStatus(branches) in {Completed, Failed, PartiallyFailed}
    ensures AggregateStatus(branches) == Completed <==>
            forall i :: 0 <= i < |branches| ==> !branches[i].status.BranchFailed?
    ensures AggregateStatus(branches) == Failed <==>
            branches != [] && forall i :: 0 <= i < |branches| ==> branches[i].status.BranchFailed?
  {
    FailedCountBounds(branches);
  }

  // ---- Restart reconciliation --------------------------------------------

  function InterruptedBranch(b: Branch): Branch {
    if b.status.BranchRunning?
    then b.(status := BranchFailed, error := Some(RESTART_INTERRUPTED_ERROR))
    else b
  }

  function InterruptedBranches(branches: seq<Branch>): (r: seq<Branch>)
    ensures |r| == |branches|
    ensures forall i :: 0 <= i < |r| ==> r[i] == InterruptedBranch(branches[i])
  {
    seq(|branches|, i requires 0 <= i < |branches| => InterruptedBranch(branches[i]))
  }

  function Reconciled(record: BatchRun): BatchRun {
    if record.status != Running then record
    else
      var branches := InterruptedBranches(record.branches);
      record.(branches := branches, status := AggregateStatus(branches))
  }

  /** `reconcile_restart`: the in-place loop computes `Reconciled`. */
  method ReconcileRestart(record: BatchRun) returns (r: BatchRun)
    ensures r == Reconciled(record)
  {
    r := record;
    if r.status != Running {
      return;
    }
    var i := 0;
    while i < |r.branches|
      invariant 0 <= i <= |r.branches| == |record.branches|
      invariant r == record.(branches := r.branches)
      invariant forall k :: 0 <= k < i ==> r.branches[k] == InterruptedBranch(record.branches[k])
      invariant forall k :: i <= k < |r.branches| ==> r.branches[k] == record.branches[k]
    {
      if r.branches[i].status == BranchRunning {
        var branch := r.branches[i];
        branch := branch.(status := BranchFailed);
        branch := branch.(error := Some(RESTART_INTERRUPTED_ERROR));
        r := r.(branches := r.branches[i := branch]);
      }
      i := i + 1;
    }
    assert r.branches == InterruptedBranches(record.branches);
    r := r.(status := AggregateStatus(r.branches));
  }

  /**
   Reconciliation is idempotent, leaves every branch that was not running (so
   every completed one) and every other field alone, never yields `running`,
   and leaves no running branch unless the record was not `running`.
   */
  lemma ReconcileLaws(record: BatchRun)
    ensures Reconciled(Reconciled(record)) == Reconciled(record)
    ensures !Reconciled(record).status.Running?
    ensures Reconciled(record) == record.(branches := Reconciled(record).branches, status := Reconciled(record).status)
    ensures |Reconciled(record).branches| == |record.branches|
    ensures forall i :: 0 <= i < |record.branches| ==>
              && Reconciled(record).branches[i] == record.branches[i].(
                   status := Reconciled(record).branches[i].status,
                   error := Reconciled(record).branches[i].error)
              && (!record.branches[i].status.BranchRunning? ==> Reconciled(record).branches[i] == record.branches[i])
    ensures record.status.Running? ==>
              && AllTerminal(Reconciled(record).branches)
              && Reconciled(record).status == AggregateStatus(Reconciled(record).branches)
              && forall i :: 0 <= i < |record.branches| && record.branches[i].status.BranchRunning? ==>
                   && Reconciled(record).branches[i].status.BranchFailed?
                   && Reconciled(record).branches[i].error == Some("\U{5E94}\U{7528}\U{91CD}\U{542F}\U{4E2D}\U{65AD}")
    ensures !record.status.Running? ==> Reconciled(record) == record
  {
    AggregateMeaning(InterruptedBranches(record.branches));
  }

  /**
   A `running` record on disk reconciles to `completed` exactly when none of its
   branches had failed or was still running; a record with a running branch
   therefore reconciles to `failed` or `partially_failed`.
   */
  lemma ReconcileOfRunning(record: BatchRun)
    requires record.status.Running?
    ensures Reconciled(record).status.Completed? <==>
            forall i :: 0 <= i < |record.branches| ==>
              !record.branches[i].status.BranchRunning? && !record.branches[i].status.BranchFailed?
    ensures !AllTerminal(record.branches) ==> Reconciled(record).status in {Failed, PartiallyFailed}
    ensures Reconciled(record).status.Failed? <==>
            record.branches != [] && forall i :: 0 <= i < |record.branches| ==>
              record.branches[i].status.BranchRunning? || record.branches[i].status.BranchFailed?
  {
    var after := InterruptedBranches(record.branches);
    AggregateMeaning(after);
    assert forall i :: 0 <= i < |record.branches| ==>
      (after[i].status.BranchFailed? <==> record.branches[i].status.BranchRunning? || record.branches[i].status.BranchFailed?);
  }

  // ---- Lookup by index ---------------------------------------------------

  /** `branches.iter().find(|b| b.index == index)`: the first match, as a position. */
  function FindBranch(branches: seq<Branch>, index: nat): (k: Option<nat>)
    ensures k.Some? ==> k.value < |branches| && branches[k.value].index == index &&
                        forall j :: 0 <= j < k.value ==> branches[j].index != index
    ensures k.None? <==> forall j :: 0 <= j < |branches| ==> branches[j].index != index
  {
    if branches == [] then None
    else if branches[0].index == index then Some(0)
    else
      var rest := FindBranch(branches[1..], index);
      assert forall j :: 0 < j < |branches| ==> branches[j] == branches[1..][j - 1];
      if rest.Some? then Some(rest.value + 1) else None
  }

  // ---- Terminal write of one branch --------------------------------------

  function TruncateChars(s: string, max: nat): (r: string)
    ensures |s| <= max ==> r == s
    ensures |r| <= max + 1
    ensures |s| > max ==> s[..max] < r
  {
    if |s| <= max then s else s[..max] + "\U{2026}"
  }

  /** What a row keeps of an observed error: nothing of none, the whole of a short one, else its first 500 characters and a mark. */
  ghost predicate KeepsError(kept: Option<string>, observed: Option<string>) {
    match observed
    case None => kept.None?
    case Some(e) => kept == Some(if |e| <= 500 then e else e[..500] + "\U{2026}")
  }

  /** Exit is ok iff the run completed without error; test counts are those of the last tool result, or absent. */
  predicate VerificationMatches(v: Verification, obs: Observation) {
    && v.exitOk == (obs.completed && obs.error.None?)
    && (v.testsPassed.Some? <==> obs.tests.Some?) && (v.testsTotal.Some? <==> obs.tests.Some?)
    && (obs.tests.Some? ==> obs.tests.value == (v.testsPassed.value, v.testsTotal.value))
  }

  /** The row a command or a task means by `index`: the first that carries it. */
  ghost predicate FirstAt(branches: seq<Branch>, index: nat, k: int) {
    0 <= k < |branches| && branches[k].index == index && forall j :: 0 <= j < k ==> branches[j].index != index
  }

  function TruncatedError(error: Option<string>): Option<string> {
    if error.Some? then Some(TruncateChars(error.value, ERROR_MAX_CHARS)) else None
  }

  function FinalBranch(b: Branch, obs: Observation, summary: Option<DiffSummary>): Branch {
    b.(status := if obs.completed then BranchCompleted else BranchFailed,
       error := TruncatedError(obs.error),
       summary := summary,
       verification := Some(Verification(
         obs.completed && obs.error.None?,
         if obs.tests.Some? then Some(obs.tests.value.0) else None,
         if obs.tests.Some? then Some(obs.tests.value.1) else None)))
  }

  function WithFinalBranch(record: BatchRun, index: nat, obs: Observation, summary: Option<DiffSummary>): BatchRun {
    var k := FindBranch(record.branches, index);
    if k.None? then record
    else record.(branches := record.branches[k.value := FinalBranch(record.branches[k.value], obs, summary)])
  }

  predicate BecameTerminal(record: BatchRun, index: nat, obs: Observation, summary: Option<DiffSummary>) {
    record.status.Running? && AllTerminal(WithFinalBranch(record, index, obs, summary).branches)
  }

  /** Phase 3 of `finalize_branch` up to, not including, the inbox append. */
  function WithOutcome(record: BatchRun, index: nat, obs: Observation, summary: Option<DiffSummary>): BatchRun {
    var written := WithFinalBranch(record, index, obs, summary);
    if BecameTerminal(record, index, obs, summary)
    then written.(status := AggregateStatus(written.branches))
    else written
  }

  /** `should_write_inbox`. */
  predicate AttemptsInbox(record: BatchRun, index: nat, obs: Observation, summary: Option<DiffSummary>) {
    && BecameTerminal(record, index, obs, summary)
    && !WithOutcome(record, index, obs, summary).status.Discarded?
    && record.inboxItem.None?
  }

  /** What the locked write of `finalize_branch` leaves: the record, the inbox, and whether it tried to append. */
  datatype Write = Write(record: BatchRun, inbox: seq<InboxItem>, attempted: bool)

  function CompletionItem(r: BatchRun): InboxItem {
    InboxItem(r.batchId, r.title, CompletionText(r.branches))
  }

  /** Phase 3 of `finalize_branch`; `appendOk` is the inbox store's answer, a row id is its position. */
  function FinalizeWrite(record: BatchRun, inbox: seq<InboxItem>, index: nat, obs: Observation,
                         summary: Option<DiffSummary>, appendOk: bool): Write
  {
    var written := WithOutcome(record, index, obs, summary);
    if !AttemptsInbox(record, index, obs, summary) then Write(written, inbox, false)
    else if !appendOk then Write(written, inbox, true)
    else Write(written.(inboxItem := Some(|inbox|)), inbox + [CompletionItem(written)], true)
  }

  /**
   The locked write, field by field. The first row with the index takes the
   outcome of its run, no other row changes. A `running` record none of whose
   rows still runs takes the status its rows give it, and if it has no item yet
   the append is attempted; nothing else changes.
   */
  lemma FinalizeMeans(record: BatchRun, inbox: seq<InboxItem>, index: nat, obs: Observation, summary: Option<DiffSummary>, appendOk: bool)
    ensures
      var write := FinalizeWrite(record, inbox, index, obs, summary, appendOk);
      var r := write.record;
      var settles := record.status == Running && forall k :: 0 <= k < |r.branches| ==> r.branches[k].status != BranchRunning;
      && |r.branches| == |record.branches|
      && (forall k :: 0 <= k < |r.branches| && !FirstAt(record.branches, index, k) ==> r.branches[k] == record.branches[k])
      && (forall k :: FirstAt(record.branches, index, k) ==>
            && r.branches[k] == record.branches[k].(
                 status := if obs.completed then BranchCompleted else BranchFailed,
                 error := r.branches[k].error, summary := summary, verification := r.branches[k].verification)
            && KeepsError(r.branches[k].error, obs.error)
            && r.branches[k].verification.Some? && VerificationMatches(r.branches[k].verification.value, obs))
      && (!settles ==> r.status == record.status)
      && (settles ==> r.status in {Completed, Failed, PartiallyFailed})
      && (settles ==> (r.status == Completed <==> forall k :: 0 <= k < |r.branches| ==> r.branches[k].status != BranchFailed))
      && (settles ==> (r.status == Failed <==>
            r.branches != [] && forall k :: 0 <= k < |r.branches| ==> r.branches[k].status == BranchFailed))
      && (write.attempted <==> settles && record.inboxItem == None)
      && (if write.attempted && appendOk
          then write.inbox == inbox + [InboxItem(record.batchId, record.title, CompletionText(r.branches))] && r.inboxItem == Some(|inbox|)
          else write.inbox == inbox && r.inboxItem == record.inboxItem)
      && r == record.(branches := r.branches, status := r.status, inboxItem := r.inboxItem)
  {
    var written := WithFinalBranch(record, index, obs, summary);
    FinalRows(record, index, obs, summary);
    AggregateMeaning(written.branches);
    hide WithFinalBranch, AggregateStatus, FirstAt, KeepsError, VerificationMatches;
  }

  lemma FinalRows(record: BatchRun, index: nat, obs: Observation, summary: Option<DiffSummary>)
    ensures
      var r := WithFinalBranch(record, index, obs, summary);
      && r == record.(branches := r.branches) && |r.branches| == |record.branches|
      && (forall k :: 0 <= k < |r.branches| && !FirstAt(record.branches, index, k) ==> r.branches[k] == record.branches[k])
      && (forall k :: FirstAt(record.branches, index, k) ==>
            && r.branches[k] == record.branches[k].(
                 status := if obs.completed then BranchCompleted else BranchFailed,
                 error := r.branches[k].error, summary := summary, verification := r.branches[k].verification)
            && KeepsError(r.branches[k].error, obs.error)
            && r.branches[k].verification.Some? && VerificationMatches(r.branches[k].verification.value, obs))
  {
    var found := FindBranch(record.branches, index);
    assert found.Some? ==> FirstAt(record.branches, index, found.value);
    assert forall k :: FirstAt(record.branches, index, k) ==> found == Some(k);
    if found.Some? { FinalBranchMeans(record.branches[found.value], obs, summary); }
    hide FinalBranch, KeepsError, VerificationMatches, FirstAt;
  }

  lemma FinalBranchMeans(b: Branch, obs: Observation, summary: Option<DiffSummary>)
    ensures
      var after := FinalBranch(b, obs, summary);
      && after == b.(status := if obs.completed then BranchCompleted else BranchFailed,
                     error := after.error, summary := summary, verification := after.verification)
      && KeepsError(after.error, obs.error)
      && after.verification.Some? && VerificationMatches(after.verification.value, obs)
  {
    if obs.error.Some? { CutMeans(obs.error.value); }
  }

  lemma CutMeans(e: string)
    ensures TruncateChars(e, ERROR_MAX_CHARS) == if |e| <= 500 then e else e[..500] + "\U{2026}"
  {
  }

  /** `update_item_content`: an unknown row id changes nothing. */
  function Refreshed(inbox: seq<InboxItem>, item: Option<nat>, text: InboxText): (r: seq<InboxItem>)
    ensures |r| == |inbox|
    ensures forall k :: 0 <= k < |inbox| ==> r[k].source == inbox[k].source
    ensures forall k :: 0 <= k < |inbox| && item != Some(k) ==> r[k] == inbox[k]
    ensures item.Some? && item.value < |inbox| ==> r[item.value].text == text
  {
    if item.Some? && item.value < |inbox|
    then inbox[item.value := inbox[item.value].(text := text)]
    else inbox
  }

  // ---- Spend, adopt, discard ---------------------------------------------

  function WithSpend(record: BatchRun, index: nat, cost: real): BatchRun {
    var k := FindBranch(record.branches, index);
    if k.None? then record
    else
      var b := record.branches[k.value];
      record.(branches := record.branches[k.value := b.(spent := b.spent + cost)])
  }

  datatype AdoptError =
    | StillRunning
    | AlreadyAdopted
    | WasDiscarded
    | NoSuchBranch(index: nat)
    | NotCompleted(index: nat, status: BranchStatus)
    | MergeFailed

  /** The checks of `adopt_batch_branch_inner`, in the source's order. */
  function AdoptCheck(record: BatchRun, index: nat): Result<Branch, AdoptError> {
    match record.status
    case Running => Err(StillRunning)
    case Adopted => Err(AlreadyAdopted)
    case Discarded => Err(WasDiscarded)
    case _ =>
      var k := FindBranch(record.branches, index);
      if k.None? then Err(NoSuchBranch(index))
      else if !record.branches[k.value].status.BranchCompleted?
      then Err(NotCompleted(index, record.branches[k.value].status))
      else Ok(record.branches[k.value])
  }

  /**
   The checks, field by field: passed exactly by a batch that is settled, neither
   adopted nor discarded, whose first row with the index is completed; and which
   refusal gives which error.
   */
  lemma AdoptCheckMeans(record: BatchRun, index: nat)
    ensures
      var check := AdoptCheck(record, index);
      var open := record.status != Running && record.status != Adopted && record.status != Discarded;
      && (check.Ok? <==> open && exists k :: FirstAt(record.branches, index, k) && record.branches[k].status == BranchCompleted)
      && (forall k :: check.Ok? && FirstAt(record.branches, index, k) ==> check.value == record.branches[k])
      && (check == Err(StillRunning) <==> record.status == Running)
      && (check == Err(AlreadyAdopted) <==> record.status == Adopted)
      && (check == Err(WasDiscarded) <==> record.status == Discarded)
      && (check == Err(NoSuchBranch(index)) <==> open && forall j :: 0 <= j < |record.branches| ==> record.branches[j].index != index)
      && (forall status :: check == Err(NotCompleted(index, status)) <==>
            open && status != BranchCompleted && exists k :: FirstAt(record.branches, index, k) && record.branches[k].status == status)
  {
    var found := FindBranch(record.branches, index);
    assert found.Some? ==> FirstAt(record.branches, index, found.value);
    assert forall k :: FirstAt(record.branches, index, k) ==> found == Some(k);
  }

  function AdoptedRecord(record: BatchRun, index: nat): BatchRun {
    record.(status := Adopted, adoptedIndex := Some(index))
  }

  predicate DiscardAllowed(record: BatchRun) {
    !record.status.Adopted? && !record.status.Discarded?
  }

  function DiscardedRecord(record: BatchRun): BatchRun {
    record.(status := Discarded)
  }

  /** Equal in every field but the branches' spend. */
  predicate SameButSpend(a: BatchRun, b: BatchRun) {
    && a == b.(branches := a.branches)
    && |a.branches| == |b.branches|
    && forall i :: 0 <= i < |a.branches| ==> a.branches[i] == b.branches[i].(spent := a.branches[i].spent)
  }

  lemma {:induction false} FailedCountIgnoresSpend(a: seq<Branch>, b: seq<Branch>)
    requires |a| == |b|
    requires forall i :: 0 <= i < |a| ==> a[i].status == b[i].status
    ensures FailedCount(a) == FailedCount(b)
  {
    if a != [] {
      assert a[0].status == b[0].status;
      assert forall i :: 0 <= i < |a[1..]| ==> a[1..][i].status == a[i + 1].status && b[1..][i].status == b[i + 1].status;
      FailedCountIgnoresSpend(a[1..], b[1..]);
    }
  }

  /** Reconciliation does not look at spend. */
  lemma ReconcileIgnoresSpend(a: BatchRun, b: BatchRun)
    requires SameButSpend(a, b)
    ensures SameButSpend(Reconciled(a), Reconciled(b))
    ensures forall i :: 0 <= i < |a.branches| ==>
              && Reconciled(a).branches[i].spent == a.branches[i].spent
              && Reconciled(b).branches[i].spent == b.branches[i].spent
  {
    FailedCountIgnoresSpend(InterruptedBranches(a.branches), InterruptedBranches(b.branches));
  }
}
