/**
 The cleanup shared by adopt and discard, and the merge that adopts a branch.
 Which branches and worktrees go, which stay, and which commits survive.
 */
module BatchCleanup {
  import opened Common
  import opened BatchRecord
  import opened BatchGit

  // ---- The decision for one branch ----------------------------------------

  datatype SkipReason = AdoptedIsKept | IsRunning | HasUnmergedWork | UnknownStatus | GitRefused

  /** A revision name as git reads it: a branch, or `HEAD`, which a batch started on a detached head recorded as its base. */
  function Resolve(g: Git, rev: string): Option<set<Commit>> {
    if rev != "HEAD" then Ref(g, rev)
    else match g.head
      case OnBranch(branch) => Ref(g, branch)
      case Detached(commits) => Some(commits)
  }

  /** Edits in the worktree, or whatever `git status` says of a plain directory. */
  predicate Dirty(g: Git, path: string) {
    if path in g.worktrees then g.worktrees[path].edits != {} else path in g.others && g.others[path]
  }

  /** `worktree_dirty`: a `git status` that fails reads as clean. */
  predicate SeenDirty(g: Git, path: string, faults: Faults) {
    Dirty(g, path) && path !in faults.status
  }

  /** `unmerged_commit_count`: a range git cannot resolve, or a count that fails, is no commits. */
  function UnmergedCount(g: Git, base: string, branch: string, faults: Faults): nat {
    if Resolve(g, base).Some? && Ref(g, branch).Some? && branch !in faults.count
    then |Ref(g, branch).value - Resolve(g, base).value|
    else 0
  }

  /** `discard_decision`; None removes the branch. */
  function DiscardDecision(g: Git, record: BatchRun, row: Branch, faults: Faults): Option<SkipReason> {
    if Some(row.index) == record.adoptedIndex then Some(AdoptedIsKept)
    else match row.status
      case BranchRunning => Some(IsRunning)
      case BranchCompleted => None
      case BranchFailed =>
        if SeenDirty(g, row.worktree, faults) || UnmergedCount(g, record.baseBranch, row.name, faults) > 0
        then Some(HasUnmergedWork) else None
      case BranchOther(_) => Some(UnknownStatus)
  }

  // ---- The loop ------------------------------------------------------------

  datatype Cleaned = Cleaned(git: Git, removed: nat, skipped: seq<(string, SkipReason)>)

  /** One branch that is not excepted: the repository after it, and why it was skipped if it was. */
  function CleanRow(g: Git, record: BatchRun, row: Branch, faults: Faults): (Git, Option<SkipReason>) {
    var decision := DiscardDecision(g, record, row, faults);
    if decision.Some? then (g, decision)
    else
      var freed := if PathExists(g, row.worktree) then RemoveIn(g, row.worktree, row.worktree in faults.remove) else Some(g);
      if freed.None? then (g, Some(GitRefused))
      else
        var deleted := DeleteBranch(freed.value, row.name, row.name in faults.delete);
        if deleted.None? then (freed.value, Some(GitRefused)) else (deleted.value, None)
  }

  function Clean(g0: Git, record: BatchRun, rows: seq<Branch>, except: Option<nat>, faults: Faults): Cleaned {
    if rows == [] then Cleaned(g0, 0, [])
    else
      var c := Clean(g0, record, rows[..|rows| - 1], except, faults);
      var row := rows[|rows| - 1];
      if except == Some(row.index) then c
      else
        var (g, reason) := CleanRow(c.git, record, row, faults);
        if reason.Some? then Cleaned(g, c.removed, c.skipped + [(row.name, reason.value)])
        else Cleaned(g, c.removed + 1, c.skipped)
  }

  function Excepted(rows: seq<Branch>, except: Option<nat>): nat {
    if rows == [] then 0
    else Excepted(rows[..|rows| - 1], except) + if except == Some(rows[|rows| - 1].index) then 1 else 0
  }

  /** Every branch is removed, listed as skipped, or excepted. */
  lemma {:induction false} CleanAccounts(g0: Git, record: BatchRun, rows: seq<Branch>, except: Option<nat>, faults: Faults)
    ensures
      var c := Clean(g0, record, rows, except, faults);
      c.removed + |c.skipped| + Excepted(rows, except) == |rows|
  {
    hide CleanRow;
    if rows != [] { CleanAccounts(g0, record, rows[..|rows| - 1], except, faults); }
  }

  /** `cleanup_branches_sync`; every branch is removed, listed as skipped, or the excepted one. */
  method CleanupBranches(g0: Git, record: BatchRun, except: Option<nat>, faults: Faults)
    returns (g: Git, removed: nat, skipped: seq<(string, SkipReason)>)
    ensures Cleaned(g, removed, skipped) == Clean(g0, record, record.branches, except, faults)
    ensures removed + |skipped| + Excepted(record.branches, except) == |record.branches|
  {
    hide DiscardDecision, RemoveIn, DeleteBranch;
    g, removed, skipped := g0, 0, [];
    var k := 0;
    while k < |record.branches|
      invariant 0 <= k <= |record.branches|
      invariant Cleaned(g, removed, skipped) == Clean(g0, record, record.branches[..k], except, faults)
    {
      var row := record.branches[k];
      assert record.branches[..k + 1][..k] == record.branches[..k];
      k := k + 1;
      if except == Some(row.index) {
        continue;
      }
      var decision := DiscardDecision(g, record, row, faults);
      if decision.Some? {
        skipped := skipped + [(row.name, decision.value)];
      } else {
        var failed := false;
        if PathExists(g, row.worktree) {
          var freed := RemoveIn(g, row.worktree, row.worktree in faults.remove);
          failed := freed.None?;
          g := Or(freed, g);
        }
        if !failed {
          var deleted := DeleteBranch(g, row.name, row.name in faults.delete);
          failed := deleted.None?;
          g := Or(deleted, g);
        }
        if failed {
          skipped := skipped + [(row.name, GitRefused)];
        } else {
          removed := removed + 1;
        }
      }
    }
    assert record.branches[..k] == record.branches;
    CleanAccounts(g0, record, record.branches, except, faults);
  }

  // ---- What stays ------------------------------------------------------------

  /** The batch's own names, as start chose them: distinct, and none of them the base branch. */
  ghost predicate OwnNames(record: BatchRun, rows: seq<Branch>) {
    && (forall i :: 0 <= i < |rows| ==> rows[i].name != record.baseBranch)
    && (forall i, j :: 0 <= i < j < |rows| ==> rows[i].name != rows[j].name && rows[i].worktree != rows[j].worktree)
  }

  /** Judged before the cleanup starts: the branch is neither excepted nor to be kept. */
  predicate ToRemove(g0: Git, record: BatchRun, except: Option<nat>, row: Branch, faults: Faults) {
    except != Some(row.index) && DiscardDecision(g0, record, row, faults).None?
  }

  ghost predicate GoneName(g0: Git, record: BatchRun, rows: seq<Branch>, except: Option<nat>, faults: Faults, name: string) {
    exists i :: 0 <= i < |rows| && rows[i].name == name && ToRemove(g0, record, except, rows[i], faults)
  }

  ghost predicate GonePath(g0: Git, record: BatchRun, rows: seq<Branch>, except: Option<nat>, faults: Faults, path: string) {
    exists i :: 0 <= i < |rows| && rows[i].worktree == path && ToRemove(g0, record, except, rows[i], faults)
  }

  /** Nothing is new or changed, and only branches and worktrees of rows to remove may be gone; never the checked-out branch. */
  ghost predicate OnlyRemoved(g: Git, g0: Git, record: BatchRun, rows: seq<Branch>, except: Option<nat>, faults: Faults) {
    && g.others == g0.others && g.head == g0.head
    && (forall b :: Ref(g, b) == Ref(g0, b) || (Ref(g, b).None? && GoneName(g0, record, rows, except, faults, b)))
    && (forall p :: Tree(g, p) == Tree(g0, p) || (Tree(g, p).None? && GonePath(g0, record, rows, except, faults, p)))
    && (g0.head.OnBranch? ==> Ref(g, g0.head.branch) == Ref(g0, g0.head.branch))
  }

  /** Removing rows one by one does not change the decision for a later row. */
  lemma {:induction false} DecisionStable(g: Git, g0: Git, record: BatchRun, rows: seq<Branch>, except: Option<nat>, faults: Faults, k: nat)
    requires k < |rows| && OwnNames(record, rows)
    requires OnlyRemoved(g, g0, record, rows[..k], except, faults)
    ensures DiscardDecision(g, record, rows[k], faults) == DiscardDecision(g0, record, rows[k], faults)
    ensures Ref(g, rows[k].name) == Ref(g0, rows[k].name)
    ensures Tree(g, rows[k].worktree) == Tree(g0, rows[k].worktree)
    ensures Resolve(g, record.baseBranch) == Resolve(g0, record.baseBranch)
  {
    assert !GoneName(g0, record, rows[..k], except, faults, rows[k].name);
    assert !GonePath(g0, record, rows[..k], except, faults, rows[k].worktree);
    assert !GoneName(g0, record, rows[..k], except, faults, record.baseBranch);
    assert Tree(g, rows[k].worktree) == Tree(g0, rows[k].worktree);
    assert Resolve(g, record.baseBranch) == Resolve(g0, record.baseBranch);
    assert Ref(g, record.baseBranch) == Ref(g0, record.baseBranch);
  }

  lemma {:induction false} CleanRowOnlyRemoves(g: Git, record: BatchRun, row: Branch, faults: Faults)
    ensures CleanRow(g, record, row, faults).0.others == g.others && CleanRow(g, record, row, faults).0.head == g.head
    ensures DiscardDecision(g, record, row, faults).Some? ==> CleanRow(g, record, row, faults) == (g, DiscardDecision(g, record, row, faults))
    ensures forall b :: Ref(CleanRow(g, record, row, faults).0, b) == Ref(g, b) ||
                        (b == row.name && Ref(CleanRow(g, record, row, faults).0, b).None? && g.head != OnBranch(b))
    ensures forall p :: Tree(CleanRow(g, record, row, faults).0, p) == Tree(g, p) ||
                        (p == row.worktree && Tree(CleanRow(g, record, row, faults).0, p).None?)
  {
  }

  lemma {:induction false} CleanOnlyRemoves(g0: Git, record: BatchRun, rows: seq<Branch>, except: Option<nat>, faults: Faults)
    requires OwnNames(record, rows)
    ensures OnlyRemoved(Clean(g0, record, rows, except, faults).git, g0, record, rows, except, faults)
  {
    if rows != [] {
      var k := |rows| - 1;
      var g := Clean(g0, record, rows[..k], except, faults).git;
      CleanOnlyRemoves(g0, record, rows[..k], except, faults);
      DecisionStable(g, g0, record, rows, except, faults, k);
      GoneGrows(g0, record, rows, except, faults, k);
      assert OnlyRemoved(g, g0, record, rows, except, faults);
      CleanRowOnlyRemoves(g, record, rows[k], faults);
      if except != Some(rows[k].index) && DiscardDecision(g0, record, rows[k], faults).None? {
        assert ToRemove(g0, record, except, rows[k], faults);
        assert GoneName(g0, record, rows, except, faults, rows[k].name);
        assert GonePath(g0, record, rows, except, faults, rows[k].worktree);
      }
    }
  }

  lemma {:induction false} GoneGrows(g0: Git, record: BatchRun, rows: seq<Branch>, except: Option<nat>, faults: Faults, k: nat)
    requires k <= |rows|
    ensures forall b :: GoneName(g0, record, rows[..k], except, faults, b) ==> GoneName(g0, record, rows, except, faults, b)
    ensures forall p :: GonePath(g0, record, rows[..k], except, faults, p) ==> GonePath(g0, record, rows, except, faults, p)
  {
    assert forall i :: 0 <= i < k ==> rows[..k][i] == rows[i];
  }

  lemma DifferenceCount(a: set<Commit>, b: set<Commit>)
    ensures |a - b| == 0 <==> a <= b
  {
    if c :| c in a && c !in b {
      assert c in a - b;
    } else {
      assert a - b == {};
    }
  }

  /** The branch has commits the base lacks, and git says so. */
  predicate SeenAhead(g: Git, record: BatchRun, row: Branch, faults: Faults) {
    && Resolve(g, record.baseBranch).Some? && Ref(g, row.name).Some? && row.name !in faults.count
    && !(Ref(g, row.name).value <= Resolve(g, record.baseBranch).value)
  }

  lemma SeenAheadIsCounted(g: Git, record: BatchRun, row: Branch, faults: Faults)
    ensures SeenAhead(g, record, row, faults) <==> UnmergedCount(g, record.baseBranch, row.name, faults) > 0
  {
    if Resolve(g, record.baseBranch).Some? && Ref(g, row.name).Some? {
      DifferenceCount(Ref(g, row.name).value, Resolve(g, record.baseBranch).value);
    }
  }

  /**
   The rows a cleanup is to keep: the excepted, adopted, running and unknown
   ones, and a failed one when git reports its edits or its unmerged commits.
   */
  predicate Protected(g: Git, record: BatchRun, except: Option<nat>, row: Branch, faults: Faults) {
    || except == Some(row.index) || record.adoptedIndex == Some(row.index)
    || row.status.BranchRunning? || row.status.BranchOther?
    || (row.status.BranchFailed? && (SeenDirty(g, row.worktree, faults) || SeenAhead(g, record, row, faults)))
  }

  lemma ProtectedIsNotRemoved(g: Git, record: BatchRun, except: Option<nat>, row: Branch, faults: Faults)
    ensures Protected(g, record, except, row, faults) <==> !ToRemove(g, record, except, row, faults)
  {
    SeenAheadIsCounted(g, record, row, faults);
  }

  /** Branch and worktree of every protected row are as they were, whichever git calls fail. */
  lemma {:induction false} CleanupKeeps(g0: Git, record: BatchRun, rows: seq<Branch>, except: Option<nat>, faults: Faults, i: nat)
    requires OwnNames(record, rows) && i < |rows|
    requires Protected(g0, record, except, rows[i], faults)
    ensures Ref(Clean(g0, record, rows, except, faults).git, rows[i].name) == Ref(g0, rows[i].name)
    ensures Tree(Clean(g0, record, rows, except, faults).git, rows[i].worktree) == Tree(g0, rows[i].worktree)
  {
    CleanOnlyRemoves(g0, record, rows, except, faults);
    ProtectedIsNotRemoved(g0, record, except, rows[i], faults);
    assert !GoneName(g0, record, rows, except, faults, rows[i].name);
    assert !GonePath(g0, record, rows, except, faults, rows[i].worktree);
  }

  lemma {:induction false} CleanupFrame(g0: Git, record: BatchRun, rows: seq<Branch>, except: Option<nat>, faults: Faults)
    requires OwnNames(record, rows)
    ensures Clean(g0, record, rows, except, faults).git.others == g0.others
    ensures Clean(g0, record, rows, except, faults).git.head == g0.head
    ensures Resolve(Clean(g0, record, rows, except, faults).git, "HEAD") == Resolve(g0, "HEAD")
    ensures forall b :: (forall i :: 0 <= i < |rows| ==> rows[i].name != b) ==>
              Ref(Clean(g0, record, rows, except, faults).git, b) == Ref(g0, b)
    ensures forall p :: (forall i :: 0 <= i < |rows| ==> rows[i].worktree != p) ==>
              Tree(Clean(g0, record, rows, except, faults).git, p) == Tree(g0, p)
  {
    CleanOnlyRemoves(g0, record, rows, except, faults);
  }

  // ---- What goes -------------------------------------------------------------

  /** Git will remove the worktree and delete the branch: it is ours, exists, and is checked out nowhere else. */
  ghost predicate Deletable(g: Git, row: Branch) {
    && "batch-" <= row.name
    && row.name in g.refs
    && OnlyAt(g, row.name, row.worktree)
    && (row.worktree in g.worktrees || row.worktree !in g.others)
  }

  lemma {:induction false} DeletableLater(g: Git, g0: Git, row: Branch)
    requires Deletable(g0, row)
    requires g.others == g0.others && g.head == g0.head
    requires Ref(g, row.name) == Ref(g0, row.name) && Tree(g, row.worktree) == Tree(g0, row.worktree)
    requires forall p :: Tree(g, p) == Tree(g0, p) || Tree(g, p).None?
    ensures Deletable(g, row)
  {
    assert row.name in g.refs <==> Ref(g, row.name).Some?;
    assert row.worktree in g.worktrees <==> Tree(g, row.worktree).Some?;
    forall p | p in g.worktrees && g.worktrees[p].head == OnBranch(row.name)
      ensures p == row.worktree
    {
      assert Tree(g, p).Some?;
      assert Tree(g0, p) == Tree(g, p);
    }
  }

  /** The two removals of this row work. */
  predicate Removes(faults: Faults, row: Branch) {
    row.worktree !in faults.remove && row.name !in faults.delete
  }

  lemma {:induction false} DeletableRowGoes(g: Git, record: BatchRun, row: Branch, faults: Faults)
    requires Deletable(g, row) && Removes(faults, row) && DiscardDecision(g, record, row, faults).None?
    ensures CleanRow(g, record, row, faults).1 == None
    ensures Ref(CleanRow(g, record, row, faults).0, row.name) == None
    ensures Tree(CleanRow(g, record, row, faults).0, row.worktree) == None
  {
    var freed := Or(RemoveIn(g, row.worktree, false), g);
    assert Tree(freed, row.worktree) == None;
    assert !CheckedOut(freed, row.name);
  }

  /** A row to remove that git can delete is gone afterwards, branch and worktree, whatever the other rows do. */
  lemma {:induction false} RowRemoved(g0: Git, record: BatchRun, rows: seq<Branch>, except: Option<nat>, faults: Faults, i: nat)
    requires OwnNames(record, rows) && i < |rows|
    requires ToRemove(g0, record, except, rows[i], faults) && Deletable(g0, rows[i]) && Removes(faults, rows[i])
    ensures Ref(Clean(g0, record, rows, except, faults).git, rows[i].name) == None
    ensures Tree(Clean(g0, record, rows, except, faults).git, rows[i].worktree) == None
  {
    var k := |rows| - 1;
    var g := Clean(g0, record, rows[..k], except, faults).git;
    assert Clean(g0, record, rows, except, faults).git ==
      if except == Some(rows[k].index) then g else CleanRow(g, record, rows[k], faults).0;
    CleanOnlyRemoves(g0, record, rows[..k], except, faults);
    DecisionStable(g, g0, record, rows, except, faults, k);
    CleanRowOnlyRemoves(g, record, rows[k], faults);
    hide Clean, CleanRow, OnlyAt, DiscardDecision, GoneName, GonePath;
    if i < k {
      RowRemoved(g0, record, rows[..k], except, faults, i);
    } else {
      DeletableLater(g, g0, rows[k]);
      DeletableRowGoes(g, record, rows[k], faults);
    }
  }

  /** The skip list as the rows look before anything is removed. */
  function KeptRows(g0: Git, record: BatchRun, rows: seq<Branch>, except: Option<nat>, faults: Faults): seq<(string, SkipReason)> {
    if rows == [] then []
    else
      var row := rows[|rows| - 1];
      var kept := KeptRows(g0, record, rows[..|rows| - 1], except, faults);
      var decision := DiscardDecision(g0, record, row, faults);
      if except == Some(row.index) || decision.None? then kept else kept + [(row.name, decision.value)]
  }

  function RemovableCount(g0: Git, record: BatchRun, rows: seq<Branch>, except: Option<nat>, faults: Faults): nat {
    if rows == [] then 0
    else RemovableCount(g0, record, rows[..|rows| - 1], except, faults) + if ToRemove(g0, record, except, rows[|rows| - 1], faults) then 1 else 0
  }

  /**
   When git removes as told, the loop counts and lists what the initial state
   says, row by row: it removes the rows to remove and lists the others with
   their reason in order.
   */
  lemma {:induction false} CleanupAsJudged(g0: Git, record: BatchRun, rows: seq<Branch>, except: Option<nat>, faults: Faults)
    requires OwnNames(record, rows)
    requires forall i :: 0 <= i < |rows| && ToRemove(g0, record, except, rows[i], faults) ==> Deletable(g0, rows[i]) && Removes(faults, rows[i])
    ensures Clean(g0, record, rows, except, faults).removed == RemovableCount(g0, record, rows, except, faults)
    ensures Clean(g0, record, rows, except, faults).skipped == KeptRows(g0, record, rows, except, faults)
  {
    if rows != [] {
      var k := |rows| - 1;
      var g := Clean(g0, record, rows[..k], except, faults).git;
      assert forall i :: 0 <= i < k ==> rows[..k][i] == rows[i];
      CleanupAsJudged(g0, record, rows[..k], except, faults);
      CleanOnlyRemoves(g0, record, rows[..k], except, faults);
      DecisionStable(g, g0, record, rows, except, faults, k);
      CleanRowOnlyRemoves(g, record, rows[k], faults);
      hide CleanRow, OnlyAt, DiscardDecision, GoneName, GonePath;
      if ToRemove(g0, record, except, rows[k], faults) {
        DeletableLater(g, g0, rows[k]);
        DeletableRowGoes(g, record, rows[k], faults);
      }
    }
  }

  /** When the worktree cannot be removed the branch stays too, and git is named as the reason. */
  lemma UnremovedKeepsBranch(g: Git, record: BatchRun, row: Branch, faults: Faults)
    requires DiscardDecision(g, record, row, faults).None?
    requires PathExists(g, row.worktree) && (row.worktree in faults.remove || row.worktree !in g.worktrees)
    ensures CleanRow(g, record, row, faults) == (g, Some(GitRefused))
  {
  }

  /** When only the deletion fails, the worktree is gone, the branch stays, and git is named as the reason. */
  lemma UndeletedKeepsBranch(g: Git, record: BatchRun, row: Branch, faults: Faults)
    requires DiscardDecision(g, record, row, faults).None?
    requires row.worktree in g.worktrees && row.worktree !in faults.remove && row.name in faults.delete
    ensures CleanRow(g, record, row, faults) == (g.(worktrees := g.worktrees - {row.worktree}), Some(GitRefused))
  {
  }

  /** Whatever a record says, a cleanup deletes no branch without the prefix of batch branches. */
  lemma {:induction false} OnlyBatchBranchesGo(g0: Git, record: BatchRun, rows: seq<Branch>, except: Option<nat>, faults: Faults, branch: string)
    requires !("batch-" <= branch)
    ensures Ref(Clean(g0, record, rows, except, faults).git, branch) == Ref(g0, branch)
  {
    if rows != [] {
      var k := |rows| - 1;
      OnlyBatchBranchesGo(g0, record, rows[..k], except, faults, branch);
      RowKeepsOthers(Clean(g0, record, rows[..k], except, faults).git, record, rows[k], faults, branch);
      hide CleanRow;
    }
  }

  lemma RowKeepsOthers(g: Git, record: BatchRun, row: Branch, faults: Faults, branch: string)
    requires !("batch-" <= branch)
    ensures Ref(CleanRow(g, record, row, faults).0, branch) == Ref(g, branch)
  {
  }

  // ---- Failed branches and their work ------------------------------------------

  /** Why a row stays, by its status: the adopted row first, then running and unknown ones, then failed ones with work git reports. */
  ghost predicate StaysFor(g: Git, record: BatchRun, row: Branch, faults: Faults, reason: SkipReason) {
    var adopted := record.adoptedIndex == Some(row.index);
    match reason
    case AdoptedIsKept => adopted
    case IsRunning => !adopted && row.status == BranchRunning
    case UnknownStatus => !adopted && row.status.BranchOther?
    case HasUnmergedWork =>
      !adopted && row.status == BranchFailed && (SeenDirty(g, row.worktree, faults) || SeenAhead(g, record, row, faults))
    case GitRefused => false
  }

  lemma DecisionMeans(g: Git, record: BatchRun, row: Branch, faults: Faults, reason: SkipReason)
    ensures DiscardDecision(g, record, row, faults) == Some(reason) <==> StaysFor(g, record, row, faults, reason)
  {
    SeenAheadIsCounted(g, record, row, faults);
  }

  /** A row is listed with a reason of its own exactly when the initial state gives that reason; git refuses only rows to remove. */
  lemma {:induction false} SkippedFor(g0: Git, record: BatchRun, rows: seq<Branch>, except: Option<nat>, faults: Faults, i: nat, reason: SkipReason)
    requires OwnNames(record, rows) && i < |rows|
    ensures reason != GitRefused ==>
              ((rows[i].name, reason) in Clean(g0, record, rows, except, faults).skipped <==>
                 except != Some(rows[i].index) && StaysFor(g0, record, rows[i], faults, reason))
    ensures (rows[i].name, GitRefused) in Clean(g0, record, rows, except, faults).skipped ==>
              except != Some(rows[i].index) && forall why :: !StaysFor(g0, record, rows[i], faults, why)
  {
    var k := |rows| - 1;
    var c := Clean(g0, record, rows[..k], except, faults);
    var skipped := Clean(g0, record, rows, except, faults).skipped;
    var reasonNow := CleanRow(c.git, record, rows[k], faults).1;
    assert skipped == if except == Some(rows[k].index) || reasonNow.None? then c.skipped else c.skipped + [(rows[k].name, reasonNow.value)];
    if i < k {
      SkippedFor(g0, record, rows[..k], except, faults, i, reason);
      assert rows[i].name != rows[k].name;
    } else {
      SkippedAreRows(g0, record, rows[..k], except, faults);
      assert forall why :: (rows[k].name, why) !in c.skipped by {
        assert forall j :: 0 <= j < k ==> rows[..k][j].name != rows[k].name;
      }
      CleanOnlyRemoves(g0, record, rows[..k], except, faults);
      DecisionStable(c.git, g0, record, rows, except, faults, k);
      CleanRowReason(c.git, record, rows[k], faults);
      forall why
        ensures DiscardDecision(g0, record, rows[k], faults) == Some(why) <==> StaysFor(g0, record, rows[k], faults, why)
      {
        DecisionMeans(g0, record, rows[k], faults, why);
      }
      hide Clean, CleanRow, DiscardDecision, StaysFor;
    }
  }

  lemma CleanRowReason(g: Git, record: BatchRun, row: Branch, faults: Faults)
    ensures DiscardDecision(g, record, row, faults).Some? ==> CleanRow(g, record, row, faults).1 == DiscardDecision(g, record, row, faults)
    ensures DiscardDecision(g, record, row, faults).None? ==> CleanRow(g, record, row, faults).1 in {None, Some(GitRefused)}
  {
  }

  lemma {:induction false} SkippedAreRows(g0: Git, record: BatchRun, rows: seq<Branch>, except: Option<nat>, faults: Faults)
    ensures forall entry :: entry in Clean(g0, record, rows, except, faults).skipped ==> exists j :: 0 <= j < |rows| && rows[j].name == entry.0
  {
    if rows != [] {
      var k := |rows| - 1;
      SkippedAreRows(g0, record, rows[..k], except, faults);
      assert forall j :: 0 <= j < k ==> rows[..k][j] == rows[j];
      hide CleanRow;
    }
  }

  /** Some branch, or the detached head of the repository or of a worktree, still reaches the commit. */
  ghost predicate Reaches(g: Git, c: Commit) {
    || (exists b :: ReachedBy(g, b, c))
    || (exists p :: DetachedAt(g, p, c))
    || (g.head.Detached? && c in g.head.commits)
  }

  predicate ReachedBy(g: Git, branch: string, c: Commit) {
    Ref(g, branch).Some? && c in Ref(g, branch).value
  }

  predicate DetachedAt(g: Git, path: string, c: Commit) {
    Tree(g, path).Some? && Tree(g, path).value.head.Detached? && c in Tree(g, path).value.head.commits
  }

  /** While the base resolves and the count answers, no commit of a failed branch is lost. */
  lemma {:induction false} FailedCommitsSurvive(g0: Git, record: BatchRun, rows: seq<Branch>, except: Option<nat>, faults: Faults, i: nat, c: Commit)
    requires OwnNames(record, rows) && i < |rows|
    requires rows[i].status.BranchFailed? && ReachedBy(g0, rows[i].name, c)
    ensures Resolve(g0, record.baseBranch).Some? && rows[i].name !in faults.count ==>
              Reaches(Clean(g0, record, rows, except, faults).git, c)
  {
    if Resolve(g0, record.baseBranch).Some? && rows[i].name !in faults.count {
      var g := Clean(g0, record, rows, except, faults).git;
      CleanOnlyRemoves(g0, record, rows, except, faults);
      var base := Resolve(g0, record.baseBranch).value;
      if c !in base {
        assert SeenAhead(g0, record, rows[i], faults);
        CleanupKeeps(g0, record, rows, except, faults, i);
        assert ReachedBy(g, rows[i].name, c);
      } else if record.baseBranch != "HEAD" {
        assert !GoneName(g0, record, rows, except, faults, record.baseBranch);
        assert ReachedBy(g, record.baseBranch, c);
      } else if g0.head.OnBranch? {
        assert ReachedBy(g, g0.head.branch, c);
      }
    }
  }

  /**
   A failed row that git can remove keeps its branch, and its worktree with
   any edits, exactly when git answers for one of them: `git status` reports the
   edits, or the base resolves and the count reports unmerged commits. A call
   that fails reads as clean, or as no commits.
   */
  lemma {:induction false} FailedRowKeptIff(g0: Git, record: BatchRun, rows: seq<Branch>, except: Option<nat>, faults: Faults, i: nat)
    requires OwnNames(record, rows) && i < |rows|
    requires rows[i].status.BranchFailed? && Deletable(g0, rows[i]) && Removes(faults, rows[i])
    requires except != Some(rows[i].index) && record.adoptedIndex != Some(rows[i].index)
    ensures
      var g := Clean(g0, record, rows, except, faults).git;
      var path, name := rows[i].worktree, rows[i].name;
      var dirty := path !in faults.status && path in g0.worktrees && g0.worktrees[path].edits != {};
      var ahead :=
        && name !in faults.count && Resolve(g0, record.baseBranch).Some?
        && exists c :: c in g0.refs[name] && c !in Resolve(g0, record.baseBranch).value;
      var kept := dirty || ahead;
      && (Ref(g, rows[i].name) == Ref(g0, rows[i].name) <==> kept)
      && (rows[i].worktree in g0.worktrees ==> (Tree(g, rows[i].worktree) == Tree(g0, rows[i].worktree) <==> kept))
  {
    ProtectedIsNotRemoved(g0, record, except, rows[i], faults);
    if Protected(g0, record, except, rows[i], faults) {
      CleanupKeeps(g0, record, rows, except, faults, i);
    } else {
      RowRemoved(g0, record, rows, except, faults, i);
    }
  }

  /** Nothing but this row's branch, or its worktree's detached head, reaches the commit. */
  ghost predicate OnlyInRow(g: Git, row: Branch, c: Commit) {
    && (ReachedBy(g, row.name, c) || DetachedAt(g, row.worktree, c))
    && (forall b :: ReachedBy(g, b, c) ==> b == row.name)
    && (forall p :: DetachedAt(g, p, c) ==> p == row.worktree)
    && (g.head.Detached? ==> c !in g.head.commits)
  }

  /**
   The commits only a failed row has survive the cleanup exactly when `git
   status` reports its worktree dirty or the count reports unmerged commits. For
   a commit of the branch the count does so whenever the base still resolves and
   git answers; commits on a detached head in the worktree are never counted.
   */
  lemma {:induction false} FailedWorkSurvivesIff(g0: Git, record: BatchRun, rows: seq<Branch>, except: Option<nat>, faults: Faults, i: nat, c: Commit)
    requires OwnNames(record, rows) && i < |rows|
    requires rows[i].status.BranchFailed? && Deletable(g0, rows[i]) && Removes(faults, rows[i])
    requires except != Some(rows[i].index) && record.adoptedIndex != Some(rows[i].index)
    requires OnlyInRow(g0, rows[i], c)
    ensures Reaches(Clean(g0, record, rows, except, faults).git, c)
            <==> SeenDirty(g0, rows[i].worktree, faults) || SeenAhead(g0, record, rows[i], faults)
    ensures ReachedBy(g0, rows[i].name, c) ==>
              (SeenAhead(g0, record, rows[i], faults) <==> Resolve(g0, record.baseBranch).Some? && rows[i].name !in faults.count)
  {
    var g := Clean(g0, record, rows, except, faults).git;
    ProtectedIsNotRemoved(g0, record, except, rows[i], faults);
    if SeenDirty(g0, rows[i].worktree, faults) || SeenAhead(g0, record, rows[i], faults) {
      CleanupKeeps(g0, record, rows, except, faults, i);
      assert ReachedBy(g, rows[i].name, c) || DetachedAt(g, rows[i].worktree, c);
    } else {
      RowRemoved(g0, record, rows, except, faults, i);
      CleanOnlyRemoves(g0, record, rows, except, faults);
      forall b
        ensures !ReachedBy(g, b, c)
      {
        assert ReachedBy(g, b, c) ==> ReachedBy(g0, b, c);
      }
      forall p
        ensures !DetachedAt(g, p, c)
      {
        assert DetachedAt(g, p, c) ==> DetachedAt(g0, p, c);
      }
    }
    if ReachedBy(g0, rows[i].name, c) { BranchCommitIsAhead(g0, record, rows, i, faults, c); }
  }

  lemma BranchCommitIsAhead(g0: Git, record: BatchRun, rows: seq<Branch>, i: nat, faults: Faults, c: Commit)
    requires OwnNames(record, rows) && i < |rows| && OnlyInRow(g0, rows[i], c) && ReachedBy(g0, rows[i].name, c)
    requires g0.head != OnBranch(rows[i].name)
    ensures SeenAhead(g0, record, rows[i], faults) <==> Resolve(g0, record.baseBranch).Some? && rows[i].name !in faults.count
  {
    if Resolve(g0, record.baseBranch).Some? && c in Resolve(g0, record.baseBranch).value {
      assert ReachedBy(g0, if record.baseBranch != "HEAD" || g0.head.Detached? then record.baseBranch else g0.head.branch, c);
    }
  }

  // ---- Witnesses ------------------------------------------------------------------

  const SAMPLE_BRANCH := "batch-a"
  const SAMPLE_PATH := "/w"

  /** A settled record with one row. */
  function OneRow(status: BranchStatus): BatchRun {
    var row := Branch(0, SAMPLE_BRANCH, SAMPLE_PATH, status, None, None, 0.0, None);
    BatchRun("a", "", "", 1, if status.BranchFailed? then Failed else Completed, 0, [row], None, "main", "", "", None)
  }

  predicate IsSample(g: Git) {
    SAMPLE_BRANCH in g.refs && g.head == OnBranch("other") && g.worktrees.Keys == {SAMPLE_PATH} && g.others == map[]
  }

  lemma OneRowFits(status: BranchStatus, g: Git)
    ensures OwnNames(OneRow(status), OneRow(status).branches)
    ensures IsSample(g) ==> Deletable(g, OneRow(status).branches[0])
  {
    assert SAMPLE_BRANCH[0] != "main"[0] && SAMPLE_BRANCH[0] != "other"[0];
  }

  /** Witness: the base branch was renamed; a clean failed branch goes, and commit 7 with it. */
  lemma RenamedBaseLosesWork() returns (g0: Git)
    ensures Resolve(g0, "main") == None && ReachedBy(g0, SAMPLE_BRANCH, 7) && !Dirty(g0, SAMPLE_PATH)
    ensures !Reaches(Clean(g0, OneRow(BranchFailed), OneRow(BranchFailed).branches, None, NO_FAULTS).git, 7)
  {
    g0 := Git(map["other" := {0}, SAMPLE_BRANCH := {7}], map[SAMPLE_PATH := Worktree(OnBranch(SAMPLE_BRANCH), {})], map[], OnBranch("other"));
    assert SAMPLE_BRANCH[0] != "main"[0] && SAMPLE_BRANCH[0] != "other"[0] && "main"[0] != "other"[0];
    OneRowFits(BranchFailed, g0);
    hide SAMPLE_BRANCH, SAMPLE_PATH, Clean, OwnNames, Deletable;
    FailedWorkSurvivesIff(g0, OneRow(BranchFailed), OneRow(BranchFailed).branches, None, NO_FAULTS, 0, 7);
  }

  /** Witness: the agent detached its head and committed 7; the worktree is clean, nothing is counted, and the commit goes with it. */
  lemma DetachedCommitIsLost() returns (g0: Git)
    ensures Tree(g0, SAMPLE_PATH) == Some(Worktree(Detached({0, 7}), {})) && Resolve(g0, "main") == Some({0}) && Reaches(g0, 7)
    ensures !Reaches(Clean(g0, OneRow(BranchFailed), OneRow(BranchFailed).branches, None, NO_FAULTS).git, 7)
  {
    g0 := Git(map["other" := {0}, "main" := {0}, SAMPLE_BRANCH := {0}],
              map[SAMPLE_PATH := Worktree(Detached({0, 7}), {})], map[], OnBranch("other"));
    assert SAMPLE_BRANCH[0] != "main"[0] && SAMPLE_BRANCH[0] != "other"[0] && "main"[0] != "other"[0];
    OneRowFits(BranchFailed, g0);
    assert DetachedAt(g0, SAMPLE_PATH, 7);
    assert forall p :: DetachedAt(g0, p, 7) ==> p == SAMPLE_PATH;
    hide SAMPLE_BRANCH, SAMPLE_PATH, Clean, OwnNames, Deletable;
    FailedWorkSurvivesIff(g0, OneRow(BranchFailed), OneRow(BranchFailed).branches, None, NO_FAULTS, 0, 7);
  }

  /** Witness: `git status` fails on a dirty worktree; the edits of a failed branch go. */
  lemma FailingStatusLosesEdits() returns (g0: Git, faults: Faults)
    ensures faults == NO_FAULTS.(status := {SAMPLE_PATH})
    ensures Tree(g0, SAMPLE_PATH) == Some(Worktree(OnBranch(SAMPLE_BRANCH), {8}))
    ensures Tree(Clean(g0, OneRow(BranchFailed), OneRow(BranchFailed).branches, None, faults).git, SAMPLE_PATH) == None
  {
    faults := NO_FAULTS.(status := {SAMPLE_PATH});
    g0 := Git(map["other" := {0}, "main" := {0}, SAMPLE_BRANCH := {0}],
              map[SAMPLE_PATH := Worktree(OnBranch(SAMPLE_BRANCH), {8})], map[], OnBranch("other"));
    assert SAMPLE_BRANCH[0] != "main"[0] && SAMPLE_BRANCH[0] != "other"[0] && "main"[0] != "other"[0];
    OneRowFits(BranchFailed, g0);
    var row := OneRow(BranchFailed).branches[0];
    assert !SeenAhead(g0, OneRow(BranchFailed), row, faults);
    ProtectedIsNotRemoved(g0, OneRow(BranchFailed), None, row, faults);
    hide SAMPLE_BRANCH, SAMPLE_PATH, Clean, OwnNames, Deletable;
    RowRemoved(g0, OneRow(BranchFailed), OneRow(BranchFailed).branches, None, faults, 0);
  }

  // ---- Adopt and discard on the repository ---------------------------------------

  /**
   `auto_commit_worktree`: uncommitted edits become a commit on what the
   worktree has checked out. None is an error, with nothing changed.
   */
  function AutoCommit(g: Git, path: string, faults: Faults, fails: bool): Option<Git> {
    if path !in g.worktrees || path in faults.status then None
    else
      var tree := g.worktrees[path];
      if tree.edits == {} then Some(g)
      else if fails then None
      else
        match tree.head
        case Detached(commits) => Some(g.(worktrees := g.worktrees[path := Worktree(Detached(commits + tree.edits), {})]))
        case OnBranch(branch) =>
          var tip := if branch in g.refs then g.refs[branch] else {};
          Some(g.(worktrees := g.worktrees[path := tree.(edits := {})], refs := g.refs[branch := tip + tree.edits]))
  }

  /** What git answers to the merge when there is something to merge. */
  datatype MergeAnswer = MergeCommit(commit: Commit) | MergeConflicts | MergeRefused

  datatype MergeResult = Merged(git: Git) | ConflictsAborted | NotMerged

  function MoveHead(g: Git, commits: set<Commit>): Git {
    match g.head
    case OnBranch(branch) => g.(refs := g.refs[branch := commits])
    case Detached(_) => g.(head := Detached(commits))
  }

  /** `merge_branch_sync`; conflicts are aborted, so anything but a merge leaves the repository alone. */
  function MergeBranch(g: Git, branch: string, answer: MergeAnswer): MergeResult {
    var head := Resolve(g, "HEAD");
    var tip := Ref(g, branch);
    if head.None? || tip.None? then NotMerged
    else if tip.value <= head.value then Merged(g)
    else match answer
      case MergeCommit(c) => Merged(MoveHead(g, head.value + tip.value + {c}))
      case MergeConflicts => ConflictsAborted
      case MergeRefused => NotMerged
  }

  datatype AdoptOutcome = Rejected(error: AdoptError) | GitError | Conflicted | AdoptedOk(removed: nat)

  /** The repository once the chosen branch was captured and merged; None when the adoption stops before that. */
  function MergedFor(g0: Git, record: BatchRun, index: nat, faults: Faults, captureFails: bool, answer: MergeAnswer): Option<Git> {
    var check := AdoptCheck(record, index);
    if check.Err? then None
    else
      var captured := AutoCommit(g0, check.value.worktree, faults, captureFails);
      if captured.None? then None
      else
        var merge := MergeBranch(captured.value, check.value.name, answer);
        if merge.Merged? then Some(merge.git) else None
  }

  /** There is no head, or no branch, to merge. */
  predicate Unresolved(g: Git, branch: string) {
    branch !in g.refs || (g.head.OnBranch? && g.head.branch !in g.refs)
  }

  /** The branch has commits the head lacks, so git has something to merge. */
  predicate AheadOfHead(g: Git, branch: string)
    requires !Unresolved(g, branch)
  {
    exists c :: c in g.refs[branch] && c !in (if g.head.OnBranch? then g.refs[g.head.branch] else g.head.commits)
  }

  /** The capture fails exactly without a worktree, when `git status` fails, or when there is something to commit and that fails. */
  lemma CaptureFailsIff(g: Git, path: string, faults: Faults, fails: bool)
    ensures AutoCommit(g, path, faults, fails).None? <==>
              path !in g.worktrees || path in faults.status || (g.worktrees[path].edits != {} && fails)
  {
  }

  /**
   `adopt_batch_branch_inner`: only a merge changes the record, and without one
   the repository gains at most the captured edits of the chosen branch.
   */
  method AdoptBranch(g0: Git, record: BatchRun, index: nat, captureFails: bool, answer: MergeAnswer, faults: Faults)
    returns (g: Git, r: BatchRun, outcome: AdoptOutcome)
    ensures outcome.Rejected? <==> AdoptCheck(record, index).Err?
    ensures outcome.Rejected? ==> g == g0 && outcome.error == AdoptCheck(record, index).error
    ensures !outcome.AdoptedOk? ==> r == record
    ensures (outcome == Rejected(StillRunning) <==> record.status == Running)
            && (outcome == Rejected(AlreadyAdopted) <==> record.status == Adopted)
            && (outcome == Rejected(WasDiscarded) <==> record.status == Discarded)
    ensures !outcome.Rejected? <==>
              && record.status != Running && record.status != Adopted && record.status != Discarded
              && exists k :: FirstAt(record.branches, index, k) && record.branches[k].status == BranchCompleted
    ensures forall k :: !outcome.Rejected? && FirstAt(record.branches, index, k) ==>
              var captured, name := AutoCommit(g0, record.branches[k].worktree, faults, captureFails), record.branches[k].name;
              if captured.None? || Unresolved(captured.value, name) then outcome == GitError
              else if !AheadOfHead(captured.value, name) then outcome.AdoptedOk?
              else match answer
                case MergeCommit(_) => outcome.AdoptedOk?
                case MergeConflicts => outcome == Conflicted
                case MergeRefused => outcome == GitError
    ensures outcome.GitError? || outcome.Conflicted? ==> g == Or(AutoCommit(g0, AdoptCheck(record, index).value.worktree, faults, captureFails), g0)
    ensures outcome.AdoptedOk? <==> MergedFor(g0, record, index, faults, captureFails, answer).Some?
    ensures outcome.AdoptedOk? ==>
              && r == AdoptedRecord(record, index)
              && var c := Clean(MergedFor(g0, record, index, faults, captureFails, answer).value, record, record.branches, Some(index), faults);
                 g == c.git && outcome.removed == c.removed
  {
    g, r := g0, record;
    AdoptCheckMeans(record, index);
    var check := AdoptCheck(record, index);
    if check.Err? {
      return g, r, Rejected(check.error);
    }
    var row := check.value;
    var captured := AutoCommit(g, row.worktree, faults, captureFails);
    if captured.None? {
      return g, r, GitError;
    }
    g := captured.value;
    var merge := MergeBranch(g, row.name, answer);
    match merge {
      case NotMerged => outcome := GitError;
      case ConflictsAborted => outcome := Conflicted;
      case Merged(merged) =>
        var removed, skipped;
        g, removed, skipped := CleanupBranches(merged, record, Some(index), faults);
        r := AdoptedRecord(record, index);
        outcome := AdoptedOk(removed);
    }
  }

  /** `discard_batch_run_inner`. */
  method DiscardBatch(g0: Git, record: BatchRun, faults: Faults)
    returns (g: Git, r: BatchRun, result: Result<(nat, seq<(string, SkipReason)>), BatchStatus>)
    ensures result.Ok? <==> DiscardAllowed(record)
    ensures result.Err? ==> g == g0 && r == record && result.error == record.status
    ensures result.Ok? ==>
              && r == DiscardedRecord(record)
              && Cleaned(g, result.value.0, result.value.1) == Clean(g0, record, record.branches, None, faults)
              && result.value.0 + |result.value.1| == |record.branches|
  {
    if record.status.Adopted? || record.status.Discarded? {
      return g0, record, Err(record.status);
    }
    var removed, skipped;
    g, removed, skipped := CleanupBranches(g0, record, None, faults);
    NothingExcepted(record.branches);
    return g, DiscardedRecord(record), Ok((removed, skipped));
  }

  lemma {:induction false} NothingExcepted(rows: seq<Branch>)
    ensures Excepted(rows, None) == 0
  {
    if rows != [] { NothingExcepted(rows[..|rows| - 1]); }
  }

  /** When indexes are positions, an adopted index excepts one branch. */
  lemma {:induction false} OneExcepted(rows: seq<Branch>, index: nat)
    requires forall i :: 0 <= i < |rows| ==> rows[i].index == i
    ensures Excepted(rows, Some(index)) == if index < |rows| then 1 else 0
  {
    if rows != [] { OneExcepted(rows[..|rows| - 1], index); }
  }

  /** An adoption removes, lists as skipped, or keeps as the adopted one every branch. */
  lemma AdoptAccounts(g: Git, record: BatchRun, index: nat, faults: Faults)
    requires forall i :: 0 <= i < |record.branches| ==> record.branches[i].index == i
    requires index < |record.branches|
    ensures
      var c := Clean(g, record, record.branches, Some(index), faults);
      c.removed + |c.skipped| + 1 == |record.branches|
  {
    CleanAccounts(g, record, record.branches, Some(index), faults);
    OneExcepted(record.branches, index);
  }

  /**
   After an adoption the base repository's head reaches everything it reached
   and every commit of the adopted branch; the adopted branch and its worktree
   stand, the worktree clean.
   */
  lemma {:induction false} AdoptedBranchIsMerged(g0: Git, record: BatchRun, index: nat, captureFails: bool, answer: MergeAnswer, faults: Faults,
                                                captured: Git, merged: Git)
    requires OwnNames(record, record.branches)
    requires AdoptCheck(record, index).Ok?
    requires AutoCommit(g0, AdoptCheck(record, index).value.worktree, faults, captureFails) == Some(captured)
    requires MergeBranch(captured, AdoptCheck(record, index).value.name, answer) == Merged(merged)
    ensures
      var row := AdoptCheck(record, index).value;
      var g := Clean(merged, record, record.branches, Some(index), faults).git;
      && Resolve(g, "HEAD").Some? && Resolve(captured, "HEAD").Some? && Ref(captured, row.name).Some?
      && Resolve(captured, "HEAD").value + Ref(captured, row.name).value <= Resolve(g, "HEAD").value
      && (forall c :: c in Resolve(g, "HEAD").value ==>
            c in Resolve(captured, "HEAD").value || c in Ref(captured, row.name).value || answer == MergeCommit(c))
      && (captured.head != OnBranch(row.name) ==> Ref(g, row.name) == Ref(captured, row.name))
      && row.worktree in g.worktrees && g.worktrees[row.worktree].edits == {}
  {
    var row := AdoptCheck(record, index).value;
    var k := FindBranch(record.branches, index).value;
    CaptureCleans(g0, row.worktree, faults, captureFails);
    MergeAdvancesHead(captured, row.name, answer);
    CleanupKeeps(merged, record, record.branches, Some(index), faults, k);
    CleanupFrame(merged, record, record.branches, Some(index), faults);
    hide Clean, MergeBranch, AutoCommit, OwnNames, DiscardDecision;
  }

  /** A capture that succeeds adds the edits to what the worktree has checked out, its branch or its own head, and changes nothing else. */
  lemma CaptureCleans(g: Git, path: string, faults: Faults, fails: bool)
    requires AutoCommit(g, path, faults, fails).Some?
    ensures
      var g', tree := AutoCommit(g, path, faults, fails).value, g.worktrees[path];
      && path in g'.worktrees && g'.worktrees[path].edits == {}
      && g'.head == g.head && g'.others == g.others
      && (forall p :: p != path ==> Tree(g', p) == Tree(g, p))
      && (forall b, c :: ReachedBy(g', b, c) <==> ReachedBy(g, b, c) || (tree.head == OnBranch(b) && c in tree.edits))
      && (forall b :: tree.head != OnBranch(b) ==> Ref(g', b) == Ref(g, b))
      && (forall c :: DetachedAt(g', path, c) <==> DetachedAt(g, path, c) || (tree.head.Detached? && c in tree.edits))
  {
  }

  lemma MergeAdvancesHead(g: Git, branch: string, answer: MergeAnswer)
    requires MergeBranch(g, branch, answer).Merged?
    ensures
      var merged := MergeBranch(g, branch, answer).git;
      && merged.worktrees == g.worktrees
      && Resolve(merged, "HEAD").Some? && Resolve(g, "HEAD").Some? && Ref(g, branch).Some?
      && Resolve(g, "HEAD").value + Ref(g, branch).value <= Resolve(merged, "HEAD").value
      && (g.head != OnBranch(branch) ==> Ref(merged, branch) == Ref(g, branch))
      && (forall c :: c in Resolve(merged, "HEAD").value ==>
            c in Resolve(g, "HEAD").value || c in Ref(g, branch).value || answer == MergeCommit(c))
      && (forall b :: g.head != OnBranch(b) ==> Ref(merged, b) == Ref(g, b))
  {
  }

  /**
   Edits the agent left uncommitted reach the head exactly when the worktree
   still had the batch's own branch (or the head's) checked out: they are
   committed where the worktree is, but the branch of the record is merged.
   */
  lemma {:induction false} EditsReachHeadIff(g0: Git, record: BatchRun, index: nat, answer: MergeAnswer, faults: Faults,
                                            captured: Git, merged: Git, c: Commit)
    requires OwnNames(record, record.branches)
    requires AdoptCheck(record, index).Ok?
    requires AutoCommit(g0, AdoptCheck(record, index).value.worktree, faults, false) == Some(captured)
    requires MergeBranch(captured, AdoptCheck(record, index).value.name, answer) == Merged(merged)
    requires c in g0.worktrees[AdoptCheck(record, index).value.worktree].edits && answer != MergeCommit(c)
    requires !Reaches(g0, c)
    ensures
      var row := AdoptCheck(record, index).value;
      var tree := g0.worktrees[row.worktree];
      var g := Clean(merged, record, record.branches, Some(index), faults).git;
      && Resolve(g, "HEAD").Some?
      && (c in Resolve(g, "HEAD").value <==> tree.head == OnBranch(row.name) || (tree.head.OnBranch? && g0.head == tree.head))
  {
    var row := AdoptCheck(record, index).value;
    var tree := g0.worktrees[row.worktree];
    CleanupFrame(merged, record, record.branches, Some(index), faults);
    forall b
      ensures !ReachedBy(g0, b, c)
    {
    }
    forall b
      ensures ReachedBy(captured, b, c) <==> tree.head == OnBranch(b)
    {
      assert !ReachedBy(g0, b, c);
    }
    assert ReachedBy(captured, row.name, c) <==> tree.head == OnBranch(row.name);
    if g0.head.OnBranch? {
      assert ReachedBy(captured, g0.head.branch, c) <==> tree.head == g0.head;
    }
  }

  /** Witness: the agent switched the worktree to another branch; the merged adoption leaves its edit 9 off the head. */
  lemma SwitchedBranchMissesEdits() returns (g0: Git, captured: Git, merged: Git)
    ensures Tree(g0, SAMPLE_PATH) == Some(Worktree(OnBranch("other"), {9}))
    ensures AutoCommit(g0, SAMPLE_PATH, NO_FAULTS, false) == Some(captured)
    ensures MergeBranch(captured, SAMPLE_BRANCH, MergeCommit(2)) == Merged(merged)
    ensures Resolve(Clean(merged, OneRow(BranchCompleted), OneRow(BranchCompleted).branches, Some(0), NO_FAULTS).git, "HEAD") == Some({0, 1, 2})
  {
    assert SAMPLE_BRANCH[0] != "main"[0] && SAMPLE_BRANCH[0] != "other"[0] && "main"[0] != "other"[0];
    g0 := Git(map["main" := {0}, "other" := {0}, SAMPLE_BRANCH := {0, 1}], map[SAMPLE_PATH := Worktree(OnBranch("other"), {9})], map[], OnBranch("main"));
    captured := AutoCommit(g0, SAMPLE_PATH, NO_FAULTS, false).value;
    merged := MergeBranch(captured, SAMPLE_BRANCH, MergeCommit(2)).git;
    assert Resolve(captured, "HEAD") == Some({0}) && Ref(captured, SAMPLE_BRANCH) == Some({0, 1});
    assert {0} + {0, 1} + {2} == {0, 1, 2};
    OneRowFits(BranchCompleted, g0);
    CleanupFrame(merged, OneRow(BranchCompleted), OneRow(BranchCompleted).branches, Some(0), NO_FAULTS);
  }

  // ---- A discard during an adoption ----------------------------------------------------

  /**
   The cleanup of a discard whose check passed removes the branch another
   command is adopting. Before the capture, the adoption then fails. After the
   merge, the head keeps what was merged while branch and worktree are gone,
   and the adoption goes on to record them as adopted.
   */
  lemma DiscardTakesAdopting(g: Git, record: BatchRun, index: nat, faults: Faults, captureFails: bool, answer: MergeAnswer)
    requires OwnNames(record, record.branches) && AdoptCheck(record, index).Ok? && record.adoptedIndex.None?
    requires Deletable(g, AdoptCheck(record, index).value) && Removes(faults, AdoptCheck(record, index).value)
    ensures
      var row := AdoptCheck(record, index).value;
      var cleaned := Clean(g, record, record.branches, None, faults).git;
      && DiscardAllowed(record)
      && Ref(cleaned, row.name) == None && Tree(cleaned, row.worktree) == None
      && Resolve(cleaned, "HEAD") == Resolve(g, "HEAD")
      && MergedFor(cleaned, record, index, faults, captureFails, answer) == None
  {
    var row := AdoptCheck(record, index).value;
    var k := FindBranch(record.branches, index).value;
    assert ToRemove(g, record, None, record.branches[k], faults);
    RowRemoved(g, record, record.branches, None, faults, k);
    CleanupFrame(g, record, record.branches, None, faults);
    var cleaned := Clean(g, record, record.branches, None, faults).git;
    assert row.worktree !in cleaned.worktrees by { assert Tree(cleaned, row.worktree) == None; }
  }
}
