/** `start_batch_run_inner` up to registration: validation, worktrees, and the record. */
module BatchStart {
  import opened Common
  import opened Text
  import opened BatchRecord
  import opened BatchGit
  import BatchProtocol
  import BatchCleanup
  import BatchTheorems

  datatype Request = Request(title: string, prompt: string, count: nat)

  /** What the caller's world supplies: a fresh id, the clock, the resolved repository. */
  datatype Context = Context(batchId: string, baseDir: string, nowMs: int, baseCommit: string, repoRoot: string)

  datatype StartError = BadCount(count: nat) | EmptyPrompt | NoCommit | WorktreeFailed(index: nat)

  /** `git rev-parse --abbrev-ref HEAD`. */
  function HeadName(g: Git): string {
    match g.head
    case OnBranch(branch) => branch
    case Detached(_) => "HEAD"
  }

  function PlanOf(g: Git, ctx: Context): Plan {
    var base := BatchCleanup.Resolve(g, "HEAD");
    Plan(ctx.batchId[..if |ctx.batchId| < 8 then |ctx.batchId| else 8], ctx.baseDir, if base.Some? then base.value else {})
  }

  /** The base repository has none of the batch's own branches checked out, as a fresh id ensures. */
  ghost predicate HeadIsOutside(g: Git, rows: seq<Row>) {
    forall i :: 0 <= i < |rows| ==> g.head != OnBranch(rows[i].branch)
  }

  function RunningBranch(row: Row): Branch {
    Branch(row.index, row.branch, row.path, BranchRunning, None, None, 0.0, None)
  }

  function Title(title: string, prompt: string): string {
    if Trim(title) != "" then Trim(title)
    else if |prompt| > 50 then prompt[..50] else prompt
  }

  /**
   Rejected input touches nothing. A failed creation leaves no record, and the
   repository as `AfterFailedStart` describes it. A success gives a record the
   protocol can register, whose rows are the created worktrees; its names meet
   what the cleanup relies on unless the head is on one of them.
   */
  method StartBatch(g0: Git, ctx: Context, request: Request, faults: Faults) returns (g: Git, r: Result<BatchRun, StartError>)
    ensures !(2 <= request.count <= 4) || IsBlank(request.prompt) ==> r.Err? && g == g0
    ensures r.Err? && r.error.WorktreeFailed? ==>
              && r.error.index < request.count
              && g == AfterFailedStart(g0, Rows(PlanOf(g0, ctx), r.error.index), Rows(PlanOf(g0, ctx), request.count)[r.error.index],
                                       PlanOf(g0, ctx).base, faults)
    ensures r.Err? && !r.error.WorktreeFailed? ==> g == g0
    ensures r.Ok? <==>
              && 2 <= request.count <= 4 && !IsBlank(request.prompt) && BatchCleanup.Resolve(g0, "HEAD").Some?
              && forall n :: 0 <= n < request.count ==> Creatable(g0, Rows(PlanOf(g0, ctx), request.count)[n], faults)
    ensures r.Ok? ==>
              && BatchProtocol.FreshRecord(r.value)
              && r.value == BatchRun(ctx.batchId, Title(request.title, Trim(request.prompt)), Trim(request.prompt), request.count, Running,
                                     ctx.nowMs, r.value.branches, None, HeadName(g0), ctx.baseCommit, ctx.repoRoot, None)
              && (forall n :: 0 <= n < request.count ==> r.value.branches[n] == RunningBranch(Rows(PlanOf(g0, ctx), request.count)[n]))
              && (BatchCleanup.OwnNames(r.value, r.value.branches) <==> HeadIsOutside(g0, Rows(PlanOf(g0, ctx), request.count)))
              && g == WithBatch(g0, Rows(PlanOf(g0, ctx), request.count), PlanOf(g0, ctx).base)
    ensures r == Err(BadCount(request.count)) <==> !(2 <= request.count <= 4)
    ensures r == Err(EmptyPrompt) <==> 2 <= request.count <= 4 && IsBlank(request.prompt)
    ensures r == Err(NoCommit) <==>
              2 <= request.count <= 4 && !IsBlank(request.prompt) && g0.head.OnBranch? && g0.head.branch !in g0.refs
    ensures r.Ok? ==>
              && r.value.title == (if !IsBlank(request.title) then Trim(request.title)
                                   else if |r.value.prompt| <= 50 then r.value.prompt else r.value.prompt[..50])
              && (forall n :: 0 <= n < request.count ==> r.value.branches[n].name == BranchName(ctx.batchId, n))
              && (forall n :: 0 <= n < request.count ==> r.value.branches[n].worktree == ctx.baseDir + "/" + BranchName(ctx.batchId, n))
              && (forall n :: 0 <= n < request.count ==> ForkedFromHead(g0, g, r.value.branches[n]))
  {
    hide BranchName, ForkedFromHead, Trim, WithBatch, AfterFailedStart, Creatable, BatchCleanup.OwnNames, HeadIsOutside, IsBlank;
    g := g0;
    if !(2 <= request.count <= 4) {
      return g, Err(BadCount(request.count));
    }
    var prompt := Trim(request.prompt);
    TrimBlank(request.prompt);
    if prompt == "" {
      return g, Err(EmptyPrompt);
    }
    var title := Title(request.title, prompt);
    var base := BatchCleanup.Resolve(g0, "HEAD");
    if base.None? {
      return g, Err(NoCommit);
    }
    var plan := PlanOf(g0, ctx);
    var created;
    g, created := CreateWorktrees(g0, plan, request.count, faults);
    if created.Err? {
      return g, Err(WorktreeFailed(created.error));
    }
    var rows := created.value;
    var branches := seq(|rows|, n requires 0 <= n < |rows| => RunningBranch(rows[n]));
    var record := BatchRun(ctx.batchId, title, prompt, request.count, Running, ctx.nowMs, branches, None,
                           HeadName(g0), ctx.baseCommit, ctx.repoRoot, None);
    NamesAreOwn(g0, plan, request.count, record);
    RowsForkFromHead(g0, ctx, request.count, rows, faults);
    TrimBlank(request.title);
    return g, Ok(record);
  }

  /** "batch-", the first eight characters of the id, a dash and the digit of the row. */
  ghost function BranchName(batchId: string, n: nat): string
    requires n < 4
  {
    "batch-" + (if |batchId| < 8 then batchId else batchId[..8]) + "-" + ["0", "1", "2", "3"][n]
  }

  /** A row whose path was free has its branch and a clean worktree on it, at the very commits the head had. */
  ghost predicate ForkedFromHead(g0: Git, g: Git, row: Branch) {
    row.worktree !in g0.worktrees && row.worktree !in g0.others ==>
      && row.name in g.refs && row.worktree in g.worktrees && g.worktrees[row.worktree] == Worktree(OnBranch(row.name), {})
      && match g0.head
         case OnBranch(branch) => branch in g0.refs && g.refs[row.name] == g0.refs[branch]
         case Detached(commits) => g.refs[row.name] == commits
  }

  lemma OneDigit(n: nat)
    requires n < 4
    ensures Decimal(n) == ["0", "1", "2", "3"][n]
  {
  }

  lemma RowIsNamed(g0: Git, ctx: Context, n: nat)
    requires n < 4
    ensures Name(PlanOf(g0, ctx), n) == BranchName(ctx.batchId, n)
    ensures Path(PlanOf(g0, ctx), n) == ctx.baseDir + "/" + BranchName(ctx.batchId, n)
  {
    OneDigit(n);
    hide Decimal;
  }

  lemma RowForksFromHead(g0: Git, g: Git, row: Row)
    requires BatchCleanup.Resolve(g0, "HEAD").Some?
    requires NewRow(g0, row) ==> StandsAt(g, row, BatchCleanup.Resolve(g0, "HEAD").value)
    ensures ForkedFromHead(g0, g, RunningBranch(row))
  {
  }

  lemma RowsForkFromHead(g0: Git, ctx: Context, count: nat, rows: seq<Row>, faults: Faults)
    requires count <= 4 && BatchCleanup.Resolve(g0, "HEAD").Some? && rows == Rows(PlanOf(g0, ctx), count)
    requires forall n :: 0 <= n < count ==> Creatable(g0, rows[n], faults)
    ensures forall n :: 0 <= n < count ==>
              && rows[n].branch == BranchName(ctx.batchId, n) && rows[n].path == ctx.baseDir + "/" + BranchName(ctx.batchId, n)
              && ForkedFromHead(g0, WithBatch(g0, rows, PlanOf(g0, ctx).base), RunningBranch(rows[n]))
  {
    var base := PlanOf(g0, ctx).base;
    RowsDistinct(PlanOf(g0, ctx), count);
    StartCreatesAll(g0, rows, base);
    hide WithBatch, ForkedFromHead, BranchName, Name, Path, StandsAt, Distinct;
    forall n | 0 <= n < count
      ensures rows[n].branch == BranchName(ctx.batchId, n) && rows[n].path == ctx.baseDir + "/" + BranchName(ctx.batchId, n)
      ensures ForkedFromHead(g0, WithBatch(g0, rows, base), RunningBranch(rows[n]))
    {
      RowIsNamed(g0, ctx, n);
      RowForksFromHead(g0, WithBatch(g0, rows, base), rows[n]);
    }
  }

  /** Batches whose ids differ in their first eight characters never share a branch name or, in one directory, a path. */
  lemma DifferentIdsShareNoName(a: string, b: string, baseDir: string, m: nat, n: nat)
    requires |a| >= 8 && |b| >= 8 && a[..8] != b[..8] && m < 4 && n < 4
    ensures BranchName(a, m) != BranchName(b, n)
    ensures baseDir + "/" + BranchName(a, m) != baseDir + "/" + BranchName(b, n)
  {
    assert BranchName(a, m)[6..14] == a[..8];
    assert BranchName(b, n)[6..14] == b[..8];
    var dir := baseDir + "/";
    assert (dir + BranchName(a, m))[|dir|..] == BranchName(a, m);
    assert (dir + BranchName(b, n))[|dir|..] == BranchName(b, n);
  }

  lemma {:induction false} NamesAreOwn(g0: Git, plan: Plan, count: nat, record: BatchRun)
    requires record.baseBranch == HeadName(g0) && |record.branches| == count
    requires forall n :: 0 <= n < count ==> record.branches[n] == RunningBranch(Rows(plan, count)[n])
    ensures BatchCleanup.OwnNames(record, record.branches) <==> HeadIsOutside(g0, Rows(plan, count))
  {
    var rows := Rows(plan, count);
    RowsDistinct(plan, count);
    forall i | 0 <= i < |record.branches|
      ensures record.branches[i].name != record.baseBranch <==> g0.head != OnBranch(rows[i].branch)
    {
      assert rows[i].branch[0] == 'b';
    }
    forall i, j | 0 <= i < j < |record.branches|
      ensures record.branches[i].name != record.branches[j].name && record.branches[i].worktree != record.branches[j].worktree
    {
      assert rows[i].branch != rows[j].branch && rows[i].path != rows[j].path;
    }
  }

  /** Whatever happens to a started batch, crashes included, its record keeps the names the cleanup relies on. */
  lemma NamesStayOwn(states: seq<BatchProtocol.System>, steps: seq<BatchProtocol.Step>, j: nat, k: nat)
    requires BatchProtocol.IsRun(states, steps) && j < k < |states|
    requires steps[j].Register? && BatchCleanup.OwnNames(steps[j].record, steps[j].record.branches)
    ensures
      var id := steps[j].record.batchId;
      id in states[k].batches && BatchTheorems.Known(states[k].batches[id]).Some? ==>
        var r := BatchTheorems.Known(states[k].batches[id]).value;
        BatchCleanup.OwnNames(r, r.branches)
  {
    var id := steps[j].record.batchId;
    if id in states[k].batches && BatchTheorems.Known(states[k].batches[id]).Some? {
      assert BatchTheorems.Known(states[j + 1].batches[id]) == Some(steps[j].record);
      BatchTheorems.IdentityFixed(states, steps, j + 1, k, id);
      var r := BatchTheorems.Known(states[k].batches[id]).value;
      assert forall i :: 0 <= i < |r.branches| ==> BatchTheorems.SameRow(r.branches[i], steps[j].record.branches[i]);
    }
  }
}
