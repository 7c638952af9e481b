/**
 What a batch does to the repository: the worktrees created at start with their
 rollback, and the cleanup rules shared by adopt and discard. Git is a value:
 branches with the commits they reach, and worktrees. `Faults` says which git
 calls fail for reasons of their own.
 */
module BatchGit {
  import opened Common
  import opened Text

  // ---- The repository ----------------------------------------------------

  type Commit = nat

  datatype Head = OnBranch(branch: string) | Detached(commits: set<Commit>)

  /** What is checked out, which may be a detached head with commits of its own; `edits` is uncommitted work, named by the commit that would capture it. */
  datatype Worktree = Worktree(head: Head, edits: set<Commit>)

  /** `others` are plain directories, with what `git status` answers there; `head` is that of the base repository. */
  datatype Git = Git(
    refs: map<string, set<Commit>>,
    worktrees: map<string, Worktree>,
    others: map<string, bool>,
    head: Head)

  /** What a failing `git worktree add -b` leaves behind; git makes the branch first. */
  datatype Leftover = NoTrace | NewBranch | NewWorktree

  /**
   Rows that cannot be created, with what the attempt leaves; paths whose
   removal, and whose `git status`, fail; branches whose deletion, and whose
   commit count, fail.
   */
  datatype Faults = Faults(create: map<nat, Leftover>, remove: set<string>, delete: set<string>, status: set<string>, count: set<string>)

  const NO_FAULTS := Faults(map[], {}, {}, {}, {})

  predicate PathExists(g: Git, path: string) {
    path in g.worktrees || path in g.others
  }

  /** `create_named`: an existing path is returned as it is, without creating a branch. None is an error; `WithLeftover` says what it leaves behind. */
  function CreateNamed(g: Git, path: string, branch: string, base: set<Commit>, fails: bool): Option<Git> {
    if PathExists(g, path) then Some(g)
    else if branch in g.refs || fails then None
    else Some(g.(refs := g.refs[branch := base], worktrees := g.worktrees[path := Worktree(OnBranch(branch), {})]))
  }

  /** `remove_in`, with `--force`. */
  function RemoveIn(g: Git, path: string, fails: bool): Option<Git> {
    if path !in g.worktrees || fails then None
    else Some(g.(worktrees := g.worktrees - {path}))
  }

  predicate CheckedOut(g: Git, branch: string) {
    g.head == OnBranch(branch) || exists path :: path in g.worktrees && g.worktrees[path].head == OnBranch(branch)
  }

  /** `delete_branch_sync`: only batch branches, and git refuses a checked-out or unknown one. */
  function DeleteBranch(g: Git, branch: string, fails: bool): Option<Git> {
    if !("batch-" <= branch) || branch !in g.refs || CheckedOut(g, branch) || fails then None
    else Some(g.(refs := g.refs - {branch}))
  }

  /** A failed call leaves the repository as it was. */
  function Or(result: Option<Git>, g: Git): Git {
    if result.Some? then result.value else g
  }

  // ---- Start: create the worktrees or roll back ---------------------------

  /** The first eight characters of the batch id, the directory for worktrees, and the commits of the base. */
  datatype Plan = Plan(id8: string, baseDir: string, base: set<Commit>)

  datatype Row = Row(index: nat, branch: string, path: string)

  function Name(plan: Plan, n: nat): string {
    "batch-" + plan.id8 + "-" + Decimal(n)
  }

  function Path(plan: Plan, n: nat): string {
    plan.baseDir + "/" + Name(plan, n)
  }

  function Rows(plan: Plan, count: nat): seq<Row> {
    seq(count, (n: nat) => Row(n, Name(plan, n), Path(plan, n)))
  }

  /** The call for this row fails only after it took effect in part. */
  predicate LeavesTrace(g: Git, row: Row, faults: Faults) {
    && !PathExists(g, row.path) && row.branch !in g.refs
    && row.index in faults.create && faults.create[row.index] != NoTrace
  }

  /** The repository after a creation that failed. */
  function WithLeftover(g: Git, row: Row, base: set<Commit>, faults: Faults): Git {
    if !LeavesTrace(g, row, faults) then g
    else
      var g' := g.(refs := g.refs[row.branch := base]);
      if faults.create[row.index].NewBranch? then g'
      else g'.(worktrees := g'.worktrees[row.path := Worktree(OnBranch(row.branch), {})])
  }

  /** No two rows share a branch or a directory, and every branch passes the deletion guard. */
  ghost predicate Distinct(rows: seq<Row>) {
    && (forall i :: 0 <= i < |rows| ==> "batch-" <= rows[i].branch)
    && (forall i, j :: 0 <= i < j < |rows| ==> rows[i].branch != rows[j].branch && rows[i].path != rows[j].path)
  }

  lemma NamesInjective(plan: Plan, m: nat, n: nat)
    ensures "batch-" <= Name(plan, n)
    ensures Name(plan, m) == Name(plan, n) ==> m == n
    ensures Path(plan, m) == Path(plan, n) ==> m == n
  {
    var prefix := "batch-" + plan.id8 + "-";
    assert Name(plan, m)[|prefix|..] == Decimal(m);
    assert Name(plan, n)[|prefix|..] == Decimal(n);
    var dir := plan.baseDir + "/";
    assert Path(plan, m)[|dir|..] == Name(plan, m);
    assert Path(plan, n)[|dir|..] == Name(plan, n);
    if Decimal(m) == Decimal(n) { DecimalInjective(m, n); }
  }

  lemma RowsDistinct(plan: Plan, count: nat)
    ensures Distinct(Rows(plan, count))
  {
    var rows := Rows(plan, count);
    forall i | 0 <= i < |rows|
      ensures "batch-" <= rows[i].branch
    {
      NamesInjective(plan, i, i);
    }
    forall i, j | 0 <= i < j < |rows|
      ensures rows[i].branch != rows[j].branch && rows[i].path != rows[j].path
    {
      NamesInjective(plan, i, j);
    }
  }

  /** `create_named` makes something for this row: its path is free. */
  predicate NewRow(g0: Git, row: Row) {
    !PathExists(g0, row.path)
  }

  /** `g0` after the rows were created one by one: a worktree and a branch for each row whose path was free. */
  function WithBatch(g0: Git, rows: seq<Row>, base: set<Commit>): Git {
    if rows == [] then g0
    else
      var g := WithBatch(g0, rows[..|rows| - 1], base);
      var row := rows[|rows| - 1];
      Or(CreateNamed(g, row.path, row.branch, base, false), g)
  }

  /** The rollback of `out`: each worktree, then its branch, in order; errors are ignored. */
  function RolledBack(g: Git, out: seq<Row>, faults: Faults): Git {
    if out == [] then g
    else
      var row := out[|out| - 1];
      var before := RolledBack(g, out[..|out| - 1], faults);
      var freed := Or(RemoveIn(before, row.path, row.path in faults.remove), before);
      Or(DeleteBranch(freed, row.branch, row.branch in faults.delete), freed)
  }

  predicate Creatable(g0: Git, row: Row, faults: Faults) {
    PathExists(g0, row.path) || (row.branch !in g0.refs && row.index !in faults.create)
  }

  /** Rows that were created before the first failure: a free path had a free branch name. */
  ghost predicate Startable(g0: Git, rows: seq<Row>) {
    forall i :: 0 <= i < |rows| ==> PathExists(g0, rows[i].path) || rows[i].branch !in g0.refs
  }

  function Ref(g: Git, branch: string): Option<set<Commit>> {
    if branch in g.refs then Some(g.refs[branch]) else None
  }

  function Tree(g: Git, path: string): Option<Worktree> {
    if path in g.worktrees then Some(g.worktrees[path]) else None
  }

  ghost predicate OwnBranch(rows: seq<Row>, branch: string) {
    exists i :: 0 <= i < |rows| && rows[i].branch == branch
  }

  ghost predicate OwnPath(rows: seq<Row>, path: string) {
    exists i :: 0 <= i < |rows| && rows[i].path == path
  }

  lemma {:induction false} CreationFrame(g0: Git, rows: seq<Row>, base: set<Commit>)
    ensures WithBatch(g0, rows, base).others == g0.others && WithBatch(g0, rows, base).head == g0.head
    ensures forall b :: !OwnBranch(rows, b) ==> Ref(WithBatch(g0, rows, base), b) == Ref(g0, b)
    ensures forall p :: !OwnPath(rows, p) ==> Tree(WithBatch(g0, rows, base), p) == Tree(g0, p)
  {
    if rows != [] {
      var k := |rows| - 1;
      CreationFrame(g0, rows[..k], base);
      assert OwnBranch(rows, rows[k].branch) && OwnPath(rows, rows[k].path);
      forall b | !OwnBranch(rows, b)
        ensures !OwnBranch(rows[..k], b)
      {
      }
      forall p | !OwnPath(rows, p)
        ensures !OwnPath(rows[..k], p)
      {
      }
    }
  }

  lemma {:induction false} DuringCreation(g0: Git, rows: seq<Row>, base: set<Commit>, k: nat)
    requires k < |rows| && Distinct(rows)
    ensures Ref(WithBatch(g0, rows[..k], base), rows[k].branch) == Ref(g0, rows[k].branch)
    ensures Tree(WithBatch(g0, rows[..k], base), rows[k].path) == Tree(g0, rows[k].path)
    ensures PathExists(WithBatch(g0, rows[..k], base), rows[k].path) == PathExists(g0, rows[k].path)
    ensures rows[k].branch in WithBatch(g0, rows[..k], base).refs <==> rows[k].branch in g0.refs
  {
    CreationFrame(g0, rows[..k], base);
    assert !OwnBranch(rows[..k], rows[k].branch);
    assert !OwnPath(rows[..k], rows[k].path);
    assert Ref(WithBatch(g0, rows[..k], base), rows[k].branch).Some? <==> rows[k].branch in g0.refs;
  }

  method RollBack(g0: Git, out: seq<Row>, faults: Faults) returns (g: Git)
    ensures g == RolledBack(g0, out, faults)
  {
    g := g0;
    var j := 0;
    while j < |out|
      invariant 0 <= j <= |out|
      invariant g == RolledBack(g0, out[..j], faults)
    {
      var row := out[j];
      assert out[..j + 1][..j] == out[..j];
      g := Or(RemoveIn(g, row.path, row.path in faults.remove), g);
      g := Or(DeleteBranch(g, row.branch, row.branch in faults.delete), g);
      j := j + 1;
    }
    assert out[..j] == out;
  }

  lemma NothingCreated(g0: Git, base: set<Commit>)
    ensures WithBatch(g0, [], base) == g0
  {
  }

  lemma {:induction false} Created(g0: Git, rows: seq<Row>, base: set<Commit>, n: nat)
    requires n < |rows|
    ensures
      var g := WithBatch(g0, rows[..n], base);
      WithBatch(g0, rows[..n + 1], base) == Or(CreateNamed(g, rows[n].path, rows[n].branch, base, false), g)
  {
    assert rows[..n + 1][..n] == rows[..n];
  }

  /**
   The creation loop of `start_batch_run_inner`. An error names the first row
   that could not be created, after the rows before it were rolled back; the
   failing row itself is not among those.
   */
  method CreateWorktrees(g0: Git, plan: Plan, count: nat, faults: Faults) returns (g: Git, r: Result<seq<Row>, nat>)
    ensures r.Ok? <==> forall n :: 0 <= n < count ==> Creatable(g0, Rows(plan, count)[n], faults)
    ensures r.Ok? ==> r.value == Rows(plan, count) && g == WithBatch(g0, Rows(plan, count), plan.base)
    ensures r.Err? ==>
              && r.error < count
              && !Creatable(g0, Rows(plan, count)[r.error], faults)
              && (forall n :: 0 <= n < r.error ==> Creatable(g0, Rows(plan, count)[n], faults))
              && g == AfterFailedStart(g0, Rows(plan, r.error), Rows(plan, count)[r.error], plan.base, faults)
  {
    ghost var rows := Rows(plan, count);
    RowsDistinct(plan, count);
    hide Name, Path, WithBatch, RolledBack, Distinct;
    g := g0;
    var out: seq<Row> := [];
    var n := 0;
    NothingCreated(g0, plan.base);
    while n < count
      invariant n <= count
      invariant out == rows[..n]
      invariant g == WithBatch(g0, out, plan.base)
      invariant forall m :: 0 <= m < n ==> Creatable(g0, rows[m], faults)
    {
      DuringCreation(g0, rows, plan.base, n);
      var name := Name(plan, n);
      var path := Path(plan, n);
      assert rows[n] == Row(n, name, path);
      var next := CreateNamed(g, path, name, plan.base, n in faults.create);
      if next.None? {
        assert !Creatable(g0, rows[n], faults);
        g := WithLeftover(g, Row(n, name, path), plan.base, faults);
        g := RollBack(g, out, faults);
        assert out == Rows(plan, n);
        return g, Err(n);
      }
      Created(g0, rows, plan.base, n);
      g := next.value;
      out := out + [Row(n, name, path)];
      assert out[..n] == rows[..n];
      n := n + 1;
    }
    assert out == rows;
    return g, Ok(out);
  }

  // ---- All or nothing ------------------------------------------------------

  /** What row `i` of a created batch has: its own worktree on its own branch at the base, or what was there before. */
  lemma {:induction false} CreatedRow(g0: Git, rows: seq<Row>, base: set<Commit>, i: nat)
    requires i < |rows| && Distinct(rows) && Startable(g0, rows)
    ensures Ref(WithBatch(g0, rows, base), rows[i].branch) == if NewRow(g0, rows[i]) then Some(base) else Ref(g0, rows[i].branch)
    ensures Tree(WithBatch(g0, rows, base), rows[i].path) ==
            if NewRow(g0, rows[i]) then Some(Worktree(OnBranch(rows[i].branch), {})) else Tree(g0, rows[i].path)
  {
    var k := |rows| - 1;
    DuringCreation(g0, rows, base, k);
    if i < k {
      CreatedRow(g0, rows[..k], base, i);
      assert rows[i].branch != rows[k].branch && rows[i].path != rows[k].path;
    }
  }

  /** No worktree but the one at `path` has `branch` checked out, and the base repository has not. */
  ghost predicate OnlyAt(g: Git, branch: string, path: string) {
    && g.head != OnBranch(branch)
    && forall p :: p in g.worktrees && g.worktrees[p].head == OnBranch(branch) ==> p == path
  }

  /** A smaller repository: nothing new, nothing changed, and outside `rows` nothing gone. */
  ghost predicate Shrunk(g: Git, g0: Git, rows: seq<Row>) {
    && g.others == g0.others && g.head == g0.head
    && (forall b :: Ref(g, b) == Ref(g0, b) || (Ref(g, b).None? && OwnBranch(rows, b)))
    && (forall p :: Tree(g, p) == Tree(g0, p) || (Tree(g, p).None? && OwnPath(rows, p)))
  }

  lemma {:induction false} RollbackShrinks(g: Git, out: seq<Row>, faults: Faults)
    ensures Shrunk(RolledBack(g, out, faults), g, out)
  {
    if out != [] {
      var k := |out| - 1;
      var before := RolledBack(g, out[..k], faults);
      RollbackShrinks(g, out[..k], faults);
      assert OwnBranch(out, out[k].branch) && OwnPath(out, out[k].path);
      assert Shrunk(before, g, out) by {
        assert forall b :: OwnBranch(out[..k], b) ==> OwnBranch(out, b);
        assert forall p :: OwnPath(out[..k], p) ==> OwnPath(out, p);
      }
      var freed := Or(RemoveIn(before, out[k].path, out[k].path in faults.remove), before);
      assert Shrunk(freed, g, out);
    }
  }

  lemma {:induction false} RollbackFrame(g: Git, out: seq<Row>, faults: Faults, k: nat)
    requires k < |out| && Distinct(out)
    ensures Ref(RolledBack(g, out[..k], faults), out[k].branch) == Ref(g, out[k].branch)
    ensures Tree(RolledBack(g, out[..k], faults), out[k].path) == Tree(g, out[k].path)
  {
    RollbackShrinks(g, out[..k], faults);
    assert !OwnBranch(out[..k], out[k].branch);
    assert !OwnPath(out[..k], out[k].path);
  }

  /** One of these rows names the path, and removing it works. */
  ghost predicate FreedBy(rows: seq<Row>, faults: Faults, path: string) {
    OwnPath(rows, path) && path !in faults.remove
  }

  lemma {:induction false} OwnPathStep(rows: seq<Row>, path: string)
    requires rows != []
    ensures OwnPath(rows, path) <==> OwnPath(rows[..|rows| - 1], path) || rows[|rows| - 1].path == path
  {
    var k := |rows| - 1;
    assert forall i :: 0 <= i < k ==> rows[..k][i] == rows[i];
  }

  /** The rollback removes exactly the worktrees at its rows' paths whose removal works, whoever made them. */
  lemma {:induction false} RolledBackTree(g: Git, out: seq<Row>, faults: Faults, path: string)
    ensures Tree(RolledBack(g, out, faults), path) == if FreedBy(out, faults, path) then None else Tree(g, path)
  {
    if out != [] {
      RolledBackTree(g, out[..|out| - 1], faults, path);
      OwnPathStep(out, path);
    }
  }

  /** When the rollback comes to row `i`, its branch is still checked out somewhere. */
  ghost predicate Held(g: Git, out: seq<Row>, faults: Faults, i: nat)
    requires i < |out|
  {
    || g.head == OnBranch(out[i].branch)
    || exists p :: p in g.worktrees && g.worktrees[p].head == OnBranch(out[i].branch) && !FreedBy(out[..i + 1], faults, p)
  }

  /** ... and deletes exactly the branches that exist, are not held, and whose deletion works. */
  lemma {:induction false} RolledBackRef(g: Git, out: seq<Row>, faults: Faults, i: nat)
    requires i < |out| && Distinct(out)
    ensures Ref(RolledBack(g, out, faults), out[i].branch) ==
            if Held(g, out, faults, i) || out[i].branch in faults.delete then Ref(g, out[i].branch) else None
  {
    var k := |out| - 1;
    if i < k {
      RolledBackRef(g, out[..k], faults, i);
      assert out[..k][..i + 1] == out[..i + 1];
      var before := RolledBack(g, out[..k], faults);
      assert out[i].branch != out[k].branch;
      assert Ref(RolledBack(g, out, faults), out[i].branch) == Ref(before, out[i].branch);
    } else {
      LastRolledBackRef(g, out, faults);
    }
  }

  lemma {:induction false} LastRolledBackRef(g: Git, out: seq<Row>, faults: Faults)
    requires out != [] && Distinct(out)
    ensures
      var k := |out| - 1;
      Ref(RolledBack(g, out, faults), out[k].branch) ==
        if Held(g, out, faults, k) || out[k].branch in faults.delete then Ref(g, out[k].branch) else None
  {
    var k := |out| - 1;
    var before := RolledBack(g, out[..k], faults);
    var freed := Or(RemoveIn(before, out[k].path, out[k].path in faults.remove), before);
    assert RolledBack(g, out, faults) == Or(DeleteBranch(freed, out[k].branch, out[k].branch in faults.delete), freed);
    RollbackFrame(g, out, faults, k);
    RollbackShrinks(g, out[..k], faults);
    forall p
      ensures Tree(freed, p) == if FreedBy(out, faults, p) then None else Tree(g, p)
    {
      RolledBackTree(g, out[..k], faults, p);
      OwnPathStep(out, p);
    }
    CheckedOutIff(g, freed, out, faults);
    assert Ref(freed, out[k].branch) == Ref(g, out[k].branch) && "batch-" <= out[k].branch;
    hide RolledBack, Held, CheckedOut, RemoveIn, FreedBy;
  }

  lemma CheckedOutIff(g: Git, freed: Git, out: seq<Row>, faults: Faults)
    requires out != [] && freed.head == g.head
    requires forall p :: Tree(freed, p) == if FreedBy(out, faults, p) then None else Tree(g, p)
    ensures CheckedOut(freed, out[|out| - 1].branch) <==> Held(g, out, faults, |out| - 1)
  {
    assert out[..|out|] == out;
    forall p
      ensures p in freed.worktrees <==> p in g.worktrees && !FreedBy(out, faults, p)
      ensures p in freed.worktrees ==> freed.worktrees[p] == g.worktrees[p]
    {
      assert p in freed.worktrees <==> Tree(freed, p).Some?;
      assert p in g.worktrees <==> Tree(g, p).Some?;
    }
  }

  /** Before the start: row `i`'s branch is on the head, or in a worktree the rollback does not remove before or with row `i`. */
  ghost predicate HeldBefore(g0: Git, rows: seq<Row>, faults: Faults, i: nat)
    requires i < |rows|
  {
    Held(g0, rows, faults, i) || (NewRow(g0, rows[i]) && rows[i].path in faults.remove)
  }

  lemma {:induction false} HeldAfterCreation(g0: Git, rows: seq<Row>, base: set<Commit>, faults: Faults, i: nat)
    requires i < |rows| && Distinct(rows) && Startable(g0, rows)
    ensures Held(WithBatch(g0, rows, base), rows, faults, i) <==> HeldBefore(g0, rows, faults, i)
  {
    CreationFrame(g0, rows, base);
    if NewRow(g0, rows[i]) { NewRowHolds(g0, rows, base, i); }
    forall p
      ensures Holds(WithBatch(g0, rows, base), rows[i].branch, p) <==>
              Holds(g0, rows[i].branch, p) || (NewRow(g0, rows[i]) && p == rows[i].path)
    {
      HoldsAfterCreation(g0, rows, base, i, p);
    }
    assert FreedBy(rows[..i + 1], faults, rows[i].path) <==> rows[i].path !in faults.remove by {
      assert rows[..i + 1][i] == rows[i];
    }
    HeldMeans(WithBatch(g0, rows, base), rows, faults, i);
    HeldMeans(g0, rows, faults, i);
    hide WithBatch, NewRow, Holds, FreedBy, Held, Distinct, Startable;
  }

  /** The worktree at `path` has `branch` checked out. */
  predicate Holds(g: Git, branch: string, path: string) {
    path in g.worktrees && g.worktrees[path].head == OnBranch(branch)
  }

  lemma HeldMeans(g: Git, rows: seq<Row>, faults: Faults, i: nat)
    requires i < |rows|
    ensures Held(g, rows, faults, i) <==>
            g.head == OnBranch(rows[i].branch) || exists p :: Holds(g, rows[i].branch, p) && !FreedBy(rows[..i + 1], faults, p)
  {
    hide FreedBy;
    if p :| Holds(g, rows[i].branch, p) && !FreedBy(rows[..i + 1], faults, p) {
      assert p in g.worktrees;
    }
    if Held(g, rows, faults, i) && g.head != OnBranch(rows[i].branch) {
      var p :| p in g.worktrees && g.worktrees[p].head == OnBranch(rows[i].branch) && !FreedBy(rows[..i + 1], faults, p);
      assert Holds(g, rows[i].branch, p);
    }
  }

  lemma {:induction false} NewRowHolds(g0: Git, rows: seq<Row>, base: set<Commit>, i: nat)
    requires i < |rows| && Distinct(rows) && Startable(g0, rows) && NewRow(g0, rows[i])
    ensures Holds(WithBatch(g0, rows, base), rows[i].branch, rows[i].path)
  {
    CreatedRow(g0, rows, base, i);
    assert Tree(WithBatch(g0, rows, base), rows[i].path) == Some(Worktree(OnBranch(rows[i].branch), {}));
  }

  lemma {:induction false} HoldsAfterCreation(g0: Git, rows: seq<Row>, base: set<Commit>, i: nat, path: string)
    requires i < |rows| && Distinct(rows) && Startable(g0, rows)
    ensures Holds(WithBatch(g0, rows, base), rows[i].branch, path) <==>
            Holds(g0, rows[i].branch, path) || (NewRow(g0, rows[i]) && path == rows[i].path)
  {
    CreatedTree(g0, rows, base, path);
    if NewRow(g0, rows[i]) { NewRowHolds(g0, rows, base, i); }
    hide WithBatch, Distinct, Startable;
  }

  ghost predicate NewPath(g0: Git, rows: seq<Row>, path: string) {
    exists i :: 0 <= i < |rows| && rows[i].path == path && NewRow(g0, rows[i])
  }

  ghost function NewBranchAt(g0: Git, rows: seq<Row>, path: string): string
    requires NewPath(g0, rows, path)
  {
    var i :| 0 <= i < |rows| && rows[i].path == path && NewRow(g0, rows[i]);
    rows[i].branch
  }

  lemma {:induction false} CreatedTree(g0: Git, rows: seq<Row>, base: set<Commit>, path: string)
    requires Distinct(rows) && Startable(g0, rows)
    ensures Tree(WithBatch(g0, rows, base), path) ==
            if NewPath(g0, rows, path) then Some(Worktree(OnBranch(NewBranchAt(g0, rows, path)), {})) else Tree(g0, path)
    ensures NewPath(g0, rows, path) ==> path !in g0.worktrees
    ensures forall i :: 0 <= i < |rows| && rows[i].path == path && NewRow(g0, rows[i]) ==> NewPath(g0, rows, path) && NewBranchAt(g0, rows, path) == rows[i].branch
    ensures forall i :: 0 <= i < |rows| && NewPath(g0, rows, path) && NewBranchAt(g0, rows, path) == rows[i].branch ==> rows[i].path == path
  {
    CreationFrame(g0, rows, base);
    if OwnPath(rows, path) {
      var i :| 0 <= i < |rows| && rows[i].path == path;
      CreatedRow(g0, rows, base, i);
    }
  }

  /** Row `i` after a failed start, for any repository and any failures. */
  lemma {:induction false} RowAfterRollback(g0: Git, rows: seq<Row>, base: set<Commit>, faults: Faults, i: nat)
    requires i < |rows| && Distinct(rows) && Startable(g0, rows)
    ensures Tree(RolledBackStart(g0, rows, base, faults), rows[i].path) ==
            if rows[i].path !in faults.remove then None
            else if NewRow(g0, rows[i]) then Some(Worktree(OnBranch(rows[i].branch), {}))
            else Tree(g0, rows[i].path)
    ensures Ref(RolledBackStart(g0, rows, base, faults), rows[i].branch) ==
            if !HeldBefore(g0, rows, faults, i) && rows[i].branch !in faults.delete then None
            else if NewRow(g0, rows[i]) then Some(base)
            else Ref(g0, rows[i].branch)
  {
    var g := WithBatch(g0, rows, base);
    CreatedRow(g0, rows, base, i);
    RolledBackTree(g, rows, faults, rows[i].path);
    assert OwnPath(rows, rows[i].path);
    RolledBackRef(g, rows, faults, i);
    HeldAfterCreation(g0, rows, base, faults, i);
  }

  /** The repository after `rows` were created and rolled back. */
  function RolledBackStart(g0: Git, rows: seq<Row>, base: set<Commit>, faults: Faults): Git {
    RolledBack(WithBatch(g0, rows, base), rows, faults)
  }

  /** The repository after `rows` were created, `failing` failed, and `rows` were rolled back. */
  function AfterFailedStart(g0: Git, rows: seq<Row>, failing: Row, base: set<Commit>, faults: Faults): Git {
    RolledBack(WithLeftover(WithBatch(g0, rows, base), failing, base, faults), rows, faults)
  }

  lemma DistinctPrefix(rows: seq<Row>, failing: Row)
    requires Distinct(rows + [failing])
    ensures Distinct(rows) && !OwnBranch(rows, failing.branch) && !OwnPath(rows, failing.path)
  {
    var all := rows + [failing];
    assert all[|rows|] == failing && forall i :: 0 <= i < |rows| ==> all[i] == rows[i];
  }

  /** Whether a row leaves a trace depends on its own branch and path alone. */
  lemma ElsewhereSame(g: Git, g0: Git, row: Row, faults: Faults)
    requires g.others == g0.others && Ref(g, row.branch) == Ref(g0, row.branch) && Tree(g, row.path) == Tree(g0, row.path)
    ensures LeavesTrace(g, row, faults) <==> LeavesTrace(g0, row, faults)
  {
    assert Ref(g, row.branch).Some? <==> row.branch in g.refs;
    assert Ref(g0, row.branch).Some? <==> row.branch in g0.refs;
    assert Tree(g, row.path).Some? <==> row.path in g.worktrees;
    assert Tree(g0, row.path).Some? <==> row.path in g0.worktrees;
  }

  /** Removing another row's worktree and branch does not touch what is left of the failing row. */
  lemma LeftoverCommutes(g: Git, row: Row, failing: Row, base: set<Commit>, faults: Faults)
    requires row.branch != failing.branch && row.path != failing.path
    ensures
      var freed := Or(RemoveIn(g, row.path, row.path in faults.remove), g);
      var left := WithLeftover(g, failing, base, faults);
      var freedLeft := Or(RemoveIn(left, row.path, row.path in faults.remove), left);
      && freedLeft == WithLeftover(freed, failing, base, faults)
      && Or(DeleteBranch(freedLeft, row.branch, row.branch in faults.delete), freedLeft) ==
         WithLeftover(Or(DeleteBranch(freed, row.branch, row.branch in faults.delete), freed), failing, base, faults)
  {
    FreeCommutes(g, row, failing, base, faults);
    DeleteCommutes(Or(RemoveIn(g, row.path, row.path in faults.remove), g), row, failing, base, faults);
  }

  lemma FreeCommutes(g: Git, row: Row, failing: Row, base: set<Commit>, faults: Faults)
    requires row.path != failing.path
    ensures
      var left := WithLeftover(g, failing, base, faults);
      Or(RemoveIn(left, row.path, row.path in faults.remove), left) ==
      WithLeftover(Or(RemoveIn(g, row.path, row.path in faults.remove), g), failing, base, faults)
  {
    var left := WithLeftover(g, failing, base, faults);
    var freed := Or(RemoveIn(g, row.path, row.path in faults.remove), g);
    var tree := Worktree(OnBranch(failing.branch), {});
    assert g.worktrees[failing.path := tree] - {row.path} == (g.worktrees - {row.path})[failing.path := tree];
    ElsewhereSame(freed, g, failing, faults);
  }

  lemma DeleteCommutes(g: Git, row: Row, failing: Row, base: set<Commit>, faults: Faults)
    requires row.branch != failing.branch
    ensures
      var left := WithLeftover(g, failing, base, faults);
      Or(DeleteBranch(left, row.branch, row.branch in faults.delete), left) ==
      WithLeftover(Or(DeleteBranch(g, row.branch, row.branch in faults.delete), g), failing, base, faults)
  {
    var left := WithLeftover(g, failing, base, faults);
    assert CheckedOut(left, row.branch) <==> CheckedOut(g, row.branch) by {
      assert forall p :: p in g.worktrees && p != failing.path ==> p in left.worktrees && left.worktrees[p] == g.worktrees[p];
    }
    assert g.refs[failing.branch := base] - {row.branch} == (g.refs - {row.branch})[failing.branch := base];
    ElsewhereSame(Or(DeleteBranch(g, row.branch, row.branch in faults.delete), g), g, failing, faults);
  }

  lemma {:induction false} LeftoverSurvives(g: Git, rows: seq<Row>, failing: Row, base: set<Commit>, faults: Faults)
    requires !OwnBranch(rows, failing.branch) && !OwnPath(rows, failing.path)
    ensures RolledBack(WithLeftover(g, failing, base, faults), rows, faults) ==
            WithLeftover(RolledBack(g, rows, faults), failing, base, faults)
  {
    if rows != [] {
      var k := |rows| - 1;
      assert forall i :: 0 <= i < k ==> rows[..k][i] == rows[i];
      LeftoverSurvives(g, rows[..k], failing, base, faults);
      LeftoverCommutes(RolledBack(g, rows[..k], faults), rows[k], failing, base, faults);
      hide WithLeftover, RemoveIn, DeleteBranch, Or;
    }
  }

  /** A failed start leaves what the rollback leaves, and the trace of the failing row on top. */
  lemma {:induction false} FailedStartLeaves(g0: Git, rows: seq<Row>, failing: Row, base: set<Commit>, faults: Faults)
    requires Distinct(rows + [failing])
    ensures AfterFailedStart(g0, rows, failing, base, faults) == WithLeftover(RolledBackStart(g0, rows, base, faults), failing, base, faults)
    ensures LeavesTrace(RolledBackStart(g0, rows, base, faults), failing, faults) <==> LeavesTrace(g0, failing, faults)
  {
    DistinctPrefix(rows, failing);
    LeftoverSurvives(WithBatch(g0, rows, base), rows, failing, base, faults);
    RollbackFrameOfStart(g0, rows, base, faults);
    ElsewhereSame(RolledBackStart(g0, rows, base, faults), g0, failing, faults);
  }

  lemma LeftoverEffect(g: Git, row: Row, base: set<Commit>, faults: Faults)
    ensures WithLeftover(g, row, base, faults).others == g.others && WithLeftover(g, row, base, faults).head == g.head
    ensures forall b :: Ref(WithLeftover(g, row, base, faults), b) ==
              if b == row.branch && LeavesTrace(g, row, faults) then Some(base) else Ref(g, b)
    ensures forall p :: Tree(WithLeftover(g, row, base, faults), p) ==
              if p == row.path && LeavesTrace(g, row, faults) && faults.create[row.index].NewWorktree?
              then Some(Worktree(OnBranch(row.branch), {})) else Tree(g, p)
  {
  }

  /**
   This row leaves no trace: what was created is removed, and what was there is
   not. An old worktree stays only if its removal fails, an old branch only if
   it is held elsewhere or its deletion fails.
   */
  ghost predicate Undone(g0: Git, rows: seq<Row>, faults: Faults, i: nat)
    requires i < |rows|
  {
    var row := rows[i];
    if NewRow(g0, row) then row.path !in faults.remove && row.branch !in faults.delete && !HeldBefore(g0, rows, faults, i)
    else
      && (row.path in g0.worktrees ==> row.path in faults.remove)
      && (row.branch in g0.refs ==> row.branch in faults.delete || HeldBefore(g0, rows, faults, i))
  }

  lemma {:induction false} RollbackFrameOfStart(g0: Git, rows: seq<Row>, base: set<Commit>, faults: Faults)
    ensures RolledBackStart(g0, rows, base, faults).others == g0.others
    ensures RolledBackStart(g0, rows, base, faults).head == g0.head
    ensures forall b :: !OwnBranch(rows, b) ==> Ref(RolledBackStart(g0, rows, base, faults), b) == Ref(g0, b)
    ensures forall p :: !OwnPath(rows, p) ==> Tree(RolledBackStart(g0, rows, base, faults), p) == Tree(g0, p)
  {
    CreationFrame(g0, rows, base);
    RollbackShrinks(WithBatch(g0, rows, base), rows, faults);
  }

  lemma SameGit(g: Git, h: Git)
    requires g.others == h.others && g.head == h.head
    requires forall b :: Ref(g, b) == Ref(h, b)
    requires forall p :: Tree(g, p) == Tree(h, p)
    ensures g == h
  {
    assert forall b :: b in g.refs <==> Ref(g, b).Some?;
    assert forall b :: b in h.refs <==> Ref(h, b).Some?;
    assert g.refs == h.refs by {
      forall b | b in g.refs
        ensures g.refs[b] == h.refs[b]
      {
        assert Ref(g, b) == Ref(h, b);
      }
    }
    assert forall p :: p in g.worktrees <==> Tree(g, p).Some?;
    assert forall p :: p in h.worktrees <==> Tree(h, p).Some?;
    assert g.worktrees == h.worktrees by {
      forall p | p in g.worktrees
        ensures g.worktrees[p] == h.worktrees[p]
      {
        assert Tree(g, p) == Tree(h, p);
      }
    }
  }

  /** The rollback returns the repository to what it was exactly when every row it covers is undone. */
  lemma {:induction false} RollbackRestores(g0: Git, rows: seq<Row>, base: set<Commit>, faults: Faults)
    requires Distinct(rows) && Startable(g0, rows)
    ensures RolledBackStart(g0, rows, base, faults) == g0 <==> forall i :: 0 <= i < |rows| ==> Undone(g0, rows, faults, i)
  {
    var g := RolledBackStart(g0, rows, base, faults);
    RollbackFrameOfStart(g0, rows, base, faults);
    forall i | 0 <= i < |rows|
      ensures Ref(g, rows[i].branch) == Ref(g0, rows[i].branch) && Tree(g, rows[i].path) == Tree(g0, rows[i].path)
              <==> Undone(g0, rows, faults, i)
    {
      RowAfterRollback(g0, rows, base, faults, i);
    }
    hide RolledBackStart, HeldBefore;
    if forall i :: 0 <= i < |rows| ==> Undone(g0, rows, faults, i) {
      forall b
        ensures Ref(g, b) == Ref(g0, b)
      {
        if OwnBranch(rows, b) {
          var i :| 0 <= i < |rows| && rows[i].branch == b;
          assert Undone(g0, rows, faults, i);
        }
      }
      forall p
        ensures Tree(g, p) == Tree(g0, p)
      {
        if OwnPath(rows, p) {
          var i :| 0 <= i < |rows| && rows[i].path == p;
          assert Undone(g0, rows, faults, i);
        }
      }
      SameGit(g, g0);
    }
  }

  /**
   A failed start returns the repository to what it was exactly when every row
   before the failure is undone and the failing one leaves no trace. A path that
   was already a worktree is not created, yet the rollback removes it, and its
   branch with it; the failing row's own branch is not rolled back at all.
   */
  lemma {:induction false} FailedStartRestores(g0: Git, rows: seq<Row>, failing: Row, base: set<Commit>, faults: Faults)
    requires Distinct(rows + [failing]) && Startable(g0, rows)
    ensures AfterFailedStart(g0, rows, failing, base, faults) == g0 <==>
            !LeavesTrace(g0, failing, faults) && forall i :: 0 <= i < |rows| ==> Undone(g0, rows, faults, i)
  {
    DistinctPrefix(rows, failing);
    FailedStartLeaves(g0, rows, failing, base, faults);
    RollbackRestores(g0, rows, base, faults);
    LeftoverEffect(RolledBackStart(g0, rows, base, faults), failing, base, faults);
    hide AfterFailedStart, RolledBackStart, Undone, Distinct, Startable;
    if LeavesTrace(g0, failing, faults) {
      assert Ref(AfterFailedStart(g0, rows, failing, base, faults), failing.branch) == Some(base);
      assert Ref(g0, failing.branch) == None;
    }
  }

  /**
   With every removal and deletion working, a failed start removes every
   worktree that already stood at one of its paths, and every old branch of
   such a row that is not held elsewhere; apart from its own new branches that
   are held, and what the failing row leaves, that is all it changes.
   */
  lemma {:induction false} FailedStartDamage(g0: Git, rows: seq<Row>, failing: Row, base: set<Commit>, faults: Faults)
    requires Distinct(rows + [failing]) && Startable(g0, rows) && faults.remove == {} && faults.delete == {}
    ensures
      var g := AfterFailedStart(g0, rows, failing, base, faults);
      && g.others == g0.others && g.head == g0.head
      && (forall p :: Tree(g, p) ==
            if OwnPath(rows, p) then None
            else if p == failing.path && LeavesTrace(g0, failing, faults) && faults.create[failing.index].NewWorktree?
            then Some(Worktree(OnBranch(failing.branch), {}))
            else Tree(g0, p))
      && (forall i :: 0 <= i < |rows| ==>
            Ref(g, rows[i].branch) ==
              if !Held(g0, rows, faults, i) then None else if NewRow(g0, rows[i]) then Some(base) else Ref(g0, rows[i].branch))
      && (forall b :: !OwnBranch(rows, b) ==>
            Ref(g, b) == if b == failing.branch && LeavesTrace(g0, failing, faults) then Some(base) else Ref(g0, b))
  {
    var g, back := AfterFailedStart(g0, rows, failing, base, faults), RolledBackStart(g0, rows, base, faults);
    DistinctPrefix(rows, failing);
    FailedStartLeaves(g0, rows, failing, base, faults);
    LeftoverEffect(back, failing, base, faults);
    RollbackFrameOfStart(g0, rows, base, faults);
    forall i | 0 <= i < |rows|
      ensures Tree(back, rows[i].path) == None && OwnPath(rows, rows[i].path) && OwnBranch(rows, rows[i].branch)
      ensures Ref(back, rows[i].branch) ==
              if !Held(g0, rows, faults, i) then None else if NewRow(g0, rows[i]) then Some(base) else Ref(g0, rows[i].branch)
    {
      RowAfterRollback(g0, rows, base, faults, i);
    }
    hide AfterFailedStart, RolledBackStart, Held, WithLeftover, LeavesTrace, Distinct, Startable;
  }

  /**
   Witness: a directory of an earlier batch with the same short id, and its
   second branch. The new batch fails on that name; the old worktree is gone
   with its edits, and so is the old first branch with its commit.
   */
  lemma OldBatchIsLost(plan: Plan) returns (g0: Git, rows: seq<Row>, failing: Row)
    ensures rows == Rows(plan, 1) && failing == Rows(plan, 2)[1] && Distinct(rows + [failing])
    ensures Creatable(g0, rows[0], NO_FAULTS) && !Creatable(g0, failing, NO_FAULTS)
    ensures Ref(g0, rows[0].branch) == Some({7}) && Tree(g0, rows[0].path) == Some(Worktree(OnBranch(rows[0].branch), {8}))
    ensures
      var g := AfterFailedStart(g0, rows, failing, plan.base, NO_FAULTS);
      Ref(g, rows[0].branch) == None && Tree(g, rows[0].path) == None && Ref(g, failing.branch) == Some({9})
  {
    rows, failing := Rows(plan, 1), Rows(plan, 2)[1];
    RowsDistinct(plan, 2);
    assert rows + [failing] == Rows(plan, 2);
    var row := rows[0];
    assert row == Rows(plan, 2)[0] && row.path != failing.path && row.branch != failing.branch;
    g0 := Git(map[row.branch := {7}, failing.branch := {9}], map[row.path := Worktree(OnBranch(row.branch), {8})], map[], Detached({}));
    hide Name, Path, AfterFailedStart, Rows;
    FailedStartDamage(g0, rows, failing, plan.base, NO_FAULTS);
    assert OwnPath(rows, row.path) && OwnPath(rows[..1], row.path) by { assert rows[..1][0] == row; }
    assert !Held(g0, rows, NO_FAULTS, 0);
    assert !OwnBranch(rows, failing.branch);
  }

  /** Witness: the very first creation fails after git made the branch. Nothing is rolled back, and the branch stays. */
  lemma FailedBranchStays(plan: Plan) returns (g0: Git, faults: Faults)
    ensures g0.refs == map[] && faults == NO_FAULTS.(create := map[0 := NewBranch])
    ensures !Creatable(g0, Rows(plan, 1)[0], faults)
    ensures AfterFailedStart(g0, [], Rows(plan, 1)[0], plan.base, faults) == g0.(refs := map[Name(plan, 0) := plan.base])
  {
    g0, faults := Git(map[], map[], map[], Detached({})), NO_FAULTS.(create := map[0 := NewBranch]);
    NothingCreated(g0, plan.base);
    var failing := Rows(plan, 1)[0];
    assert failing == Row(0, Name(plan, 0), Path(plan, 0)) && LeavesTrace(g0, failing, faults);
    hide Name, Path, Rows;
  }

  /** The row has its own branch at the base, checked out in its own worktree. */
  predicate StandsAt(g: Git, row: Row, base: set<Commit>) {
    && Ref(g, row.branch) == Some(base)
    && Tree(g, row.path) == Some(Worktree(OnBranch(row.branch), {}))
  }

  /**
   A successful start leaves everything that was there, and gives a row its
   branch and worktree at the base exactly when its path was free, or it stood
   there just so.
   */
  lemma {:induction false} StartCreatesAll(g0: Git, rows: seq<Row>, base: set<Commit>)
    requires Distinct(rows) && Startable(g0, rows)
    ensures forall i :: 0 <= i < |rows| ==>
              (StandsAt(WithBatch(g0, rows, base), rows[i], base) <==> NewRow(g0, rows[i]) || StandsAt(g0, rows[i], base))
    ensures forall b :: b in g0.refs ==> Ref(WithBatch(g0, rows, base), b) == Ref(g0, b)
    ensures forall p :: p in g0.worktrees ==> Tree(WithBatch(g0, rows, base), p) == Tree(g0, p)
  {
    var g := WithBatch(g0, rows, base);
    CreationFrame(g0, rows, base);
    forall i | 0 <= i < |rows|
      ensures StandsAt(g, rows[i], base) <==> NewRow(g0, rows[i]) || StandsAt(g0, rows[i], base)
    {
      CreatedRow(g0, rows, base, i);
    }
    forall p | p in g0.worktrees
      ensures Tree(g, p) == Tree(g0, p)
    {
      CreatedTree(g0, rows, base, p);
    }
    forall b | b in g0.refs
      ensures Ref(g, b) == Ref(g0, b)
    {
      if OwnBranch(rows, b) {
        var i :| 0 <= i < |rows| && rows[i].branch == b;
        CreatedRow(g0, rows, base, i);
      }
    }
  }

  /** Witness: a left-over plain directory; the start succeeds and that row has neither branch nor worktree. */
  lemma StartWithoutBranch(plan: Plan) returns (g0: Git, rows: seq<Row>)
    ensures rows == Rows(plan, 2) && Distinct(rows) && Startable(g0, rows)
    ensures forall i :: 0 <= i < 2 ==> Creatable(g0, rows[i], NO_FAULTS)
    ensures Ref(WithBatch(g0, rows, plan.base), rows[0].branch) == None && Tree(WithBatch(g0, rows, plan.base), rows[0].path) == None
    ensures StandsAt(WithBatch(g0, rows, plan.base), rows[1], plan.base)
  {
    rows := Rows(plan, 2);
    RowsDistinct(plan, 2);
    hide Name, Path, WithBatch, Rows;
    g0 := Git(map[], map[], map[rows[0].path := false], Detached({}));
    assert rows[0].path != rows[1].path;
    assert NewRow(g0, rows[1]);
    CreatedRow(g0, rows, plan.base, 0);
    CreatedRow(g0, rows, plan.base, 1);
  }

  /** The repository then has exactly one branch more per row whose path was free. */
  lemma {:induction false} StartCountsBranches(g0: Git, rows: seq<Row>, base: set<Commit>)
    requires Distinct(rows) && Startable(g0, rows)
    ensures |g0.refs| <= |WithBatch(g0, rows, base).refs| <= |g0.refs| + |rows|
    ensures |WithBatch(g0, rows, base).refs| == |g0.refs| + |rows| <==> forall i :: 0 <= i < |rows| ==> NewRow(g0, rows[i])
  {
    if rows != [] {
      var k := |rows| - 1;
      StartCountsBranches(g0, rows[..k], base);
      DuringCreation(g0, rows, base, k);
      CreateCounts(WithBatch(g0, rows[..k], base), rows[k], base);
      assert WithBatch(g0, rows, base) == Or(CreateNamed(WithBatch(g0, rows[..k], base), rows[k].path, rows[k].branch, base, false), WithBatch(g0, rows[..k], base));
      hide CreateNamed, Or, WithBatch, Distinct;
      assert forall i :: 0 <= i < k ==> rows[..k][i] == rows[i];
    }
  }

  lemma CreateCounts(g: Git, row: Row, base: set<Commit>)
    requires PathExists(g, row.path) || row.branch !in g.refs
    ensures |Or(CreateNamed(g, row.path, row.branch, base, false), g).refs| == |g.refs| + if PathExists(g, row.path) then 0 else 1
  {
    if !PathExists(g, row.path) { OneKeyMore(g.refs, row.branch, base); }
  }

  lemma OneKeyMore<K, V>(m: map<K, V>, key: K, value: V)
    requires key !in m
    ensures |m[key := value]| == |m| + 1
  {
    assert m[key := value].Keys == m.Keys + {key};
    assert |m[key := value]| == |m[key := value].Keys| && |m| == |m.Keys|;
  }
}
