/**
 One batch with the identity of its handles. The registry, the branch tasks and
 every command in flight each hold a handle; `list` and `get_or_load` register a
 new one over whatever is there by the time they have read the disk, and those
 who hold the old handle go on with it.

 Grain: a command runs its checks and its write as one step, after it got its
 handle. Permits are left to `BatchProtocol`.
 */
module BatchHandles {
  import opened Common
  import opened BatchRecord
  import opened BatchProtocol
  import BatchTheorems

  // ---- State -------------------------------------------------------------

  datatype Command = AdoptCommand(index: nat) | DiscardCommand

  datatype InFlight = Holds(handle: nat, command: Command) | Ended

  /**
   `handles` are the records of all handles this process ever made, by identity;
   `live` is the one in the registry, `home` the one start and its branch tasks
   hold.
   */
  datatype State = State(
    handles: seq<BatchRun>,
    live: Option<nat>,
    disk: Option<BatchRun>,
    runner: Runner,
    home: nat,
    commands: seq<InFlight>)

  datatype OwnStep =
    | PersistFirst
    | SpawnTasks
    | Acquire(i: nat)
    | QueueFails(i: nat, message: string)
    | Spend(i: nat, cost: real)
    | Ends(i: nat, obs: Observation)
    | Finish(i: nat, summary: Option<DiffSummary>, item: Option<nat>)

  datatype HandleStep =
    | Own(step: OwnStep)
    | Begin(command: Command)
    | Carry(c: nat)

  ghost predicate WellFormed(s: State) {
    && (s.live.Some? ==> s.live.value < |s.handles|)
    && (!s.runner.NoRunner? ==> s.home < |s.handles|)
    && forall c :: 0 <= c < |s.commands| && s.commands[c].Holds? ==> s.commands[c].handle < |s.handles|
  }

  // ---- Steps -------------------------------------------------------------

  /** The batch as start and its branch tasks see it, through the handle they hold. */
  function OwnView(s: State): BatchState
    requires !s.runner.NoRunner? ==> s.home < |s.handles|
  {
    BatchState(if s.runner.NoRunner? then None else Some(s.handles[s.home]), s.disk, s.runner)
  }

  predicate OwnEnabled(b: BatchState, step: OwnStep) {
    b.mem.Some? && match step
      case PersistFirst => b.runner.Registered?
      case SpawnTasks => b.runner.Persisted?
      case Acquire(i) => HasTask(b, i) && b.runner.tasks[i].Queued?
      case QueueFails(i, _) => HasTask(b, i) && b.runner.tasks[i].Queued?
      case Spend(i, _) => HasTask(b, i) && b.runner.tasks[i].Executing?
      case Ends(i, _) => HasTask(b, i) && b.runner.tasks[i].Executing?
      case Finish(i, _, _) => HasTask(b, i) && b.runner.tasks[i].Observed?
  }

  predicate HasTask(b: BatchState, i: nat) {
    b.runner.Spawned? && i < |b.runner.tasks|
  }

  function OwnNext(b: BatchState, step: OwnStep): BatchState
    requires OwnEnabled(b, step)
  {
    match step
    case PersistFirst => Persist(b, b.mem.value).(runner := Persisted)
    case SpawnTasks => b.(runner := Spawned(seq(|b.mem.value.branches|, _ => Queued)))
    case Acquire(i) => SetTask(b, i, Executing)
    case QueueFails(i, message) => SetTask(b, i, Observed(Observation(false, Some(message), None)))
    case Spend(i, cost) => b.(mem := Some(WithSpend(b.mem.value, i, cost)))
    case Ends(i, obs) => SetTask(b, i, Observed(obs))
    case Finish(i, summary, item) =>
      var obs := b.runner.tasks[i].obs;
      SetTask(Persist(b, WithOutcome(b.mem.value, i, obs, summary).(inboxItem := item)), i, Finalized(obs, summary))
  }

  predicate Passes(r: BatchRun, command: Command) {
    match command
    case AdoptCommand(index) => AdoptCheck(r, index).Ok?
    case DiscardCommand => DiscardAllowed(r)
  }

  function Written(r: BatchRun, command: Command): BatchRun {
    match command
    case AdoptCommand(index) => AdoptedRecord(r, index)
    case DiscardCommand => DiscardedRecord(r)
  }

  predicate HandleEnabled(s: State, step: HandleStep) {
    match step
    case Own(own) => !s.runner.NoRunner? && s.home < |s.handles| && OwnEnabled(OwnView(s), own)
    case Begin(_) => s.live.Some? || s.disk.Some?
    case Carry(c) => c < |s.commands| && s.commands[c].Holds? && s.commands[c].handle < |s.handles|
  }

  /** A write through handle `h`, mirrored to disk. */
  function WriteThrough(s: State, h: nat, r: BatchRun): State
    requires h < |s.handles|
  {
    s.(handles := s.handles[h := r], disk := Some(r))
  }

  /** A new handle takes the registry. */
  function Registering(s: State, r: BatchRun): State {
    s.(handles := s.handles + [r], live := Some(|s.handles|))
  }

  function HandleNext(s: State, step: HandleStep): State
    requires HandleEnabled(s, step)
  {
    match step
    case Own(own) =>
      var b := OwnNext(OwnView(s), own);
      s.(handles := s.handles[s.home := b.mem.value], disk := b.disk, runner := b.runner)
    case Begin(command) =>
      var t := if s.live.Some? then s else Registering(s, Reconciled(s.disk.value));
      t.(commands := t.commands + [Holds(t.live.value, command)])
    case Carry(c) =>
      var h, command := s.commands[c].handle, s.commands[c].command;
      var t := s.(commands := s.commands[c := Ended]);
      if Passes(s.handles[h], command) then WriteThrough(t, h, Written(s.handles[h], command)) else t
  }

  /** What the user is shown, and what a crash would leave. */
  function View(s: State): (Option<BatchRun>, Option<BatchRun>) {
    (if s.live.Some? && s.live.value < |s.handles| then Some(s.handles[s.live.value]) else None, s.disk)
  }

  function Replay(s: State, steps: seq<HandleStep>): Option<State>
    decreases |steps|
  {
    if steps == [] then Some(s)
    else if HandleEnabled(s, steps[0]) then Replay(HandleNext(s, steps[0]), steps[1..])
    else None
  }

  // ---- The second halves of list and get_or_load ----------------------------

  /**
   Register the record read from disk, reconciled, over whatever is live by now;
   `list` also writes it back. The disk may have moved on since it was read.
   */
  function Replace(s: State, read: BatchRun, writeBack: bool): State {
    var r := Reconciled(read);
    var t := Registering(s, r);
    if writeBack then t.(disk := Some(r)) else t
  }

  /** The same as one step with the look-up: a live handle is left alone. */
  function AtomicLoad(s: State, writeBack: bool): State {
    if s.live.Some? || s.disk.None? then s else Replace(s, s.disk.value, writeBack)
  }

  /** No continuation can tell the two states apart. */
  ghost predicate Indistinguishable(s: State, t: State) {
    forall steps :: SameOutcome(Replay(s, steps), Replay(t, steps))
  }

  predicate SameOutcome(a: Option<State>, b: Option<State>) {
    if a.None? then b.None? else b.Some? && View(a.value) == View(b.value)
  }

  // ---- Who may still write through a handle ------------------------------------

  /** Start or a branch task will still write through `home`. */
  ghost predicate Active(s: State) {
    match s.runner
    case NoRunner => false
    case Registered => true
    case Persisted => true
    case Spawned(tasks) => exists i :: 0 <= i < |tasks| && !tasks[i].Finalized?
  }

  /** The command may still write: its checks pass, or the branch tasks can yet make them pass. */
  ghost predicate MayWrite(s: State, c: nat)
    requires WellFormed(s) && c < |s.commands| && s.commands[c].Holds?
  {
    Passes(s.handles[s.commands[c].handle], s.commands[c].command) || (Active(s) && s.commands[c].handle == s.home)
  }

  datatype Role = Registry | Tasks | Cmd(c: nat)

  /** The registry, and everyone who may still write. */
  ghost predicate Present(s: State, role: Role)
    requires WellFormed(s)
  {
    match role
    case Registry => s.live.Some?
    case Tasks => Active(s)
    case Cmd(c) => c < |s.commands| && s.commands[c].Holds? && MayWrite(s, c)
  }

  ghost function HandleOf(s: State, role: Role): (h: nat)
    requires WellFormed(s) && Present(s, role)
    ensures h < |s.handles|
  {
    match role
    case Registry => s.live.value
    case Tasks => s.home
    case Cmd(c) => s.commands[c].handle
  }

  /** Nobody but the registry holds the live handle to write through it. */
  ghost predicate Unheld(s: State)
    requires WellFormed(s) && s.live.Some?
  {
    forall role :: role != Registry && Present(s, role) ==> HandleOf(s, role) != s.live.value
  }

  // ---- Two states that differ in unused handles only ------------------------------

  ghost predicate SameCommand(s: State, t: State, c: nat)
    requires WellFormed(s) && WellFormed(t) && c < |s.commands| == |t.commands|
  {
    && (s.commands[c].Ended? <==> t.commands[c].Ended?)
    && (s.commands[c].Holds? ==>
          s.commands[c].command == t.commands[c].command && (MayWrite(s, c) <==> MayWrite(t, c)))
  }

  /** Two roles hold equal records, and the same handle in one state iff in the other. */
  ghost predicate Tied(s: State, t: State, a: Role, b: Role)
    requires WellFormed(s) && WellFormed(t)
  {
    Present(s, a) && Present(s, b) ==>
      && Present(t, a) && Present(t, b)
      && s.handles[HandleOf(s, a)] == t.handles[HandleOf(t, a)]
      && (HandleOf(s, a) == HandleOf(s, b) <==> HandleOf(t, a) == HandleOf(t, b))
  }

  ghost predicate Same(s: State, t: State) {
    && WellFormed(s) && WellFormed(t)
    && s.live.Some? && t.live.Some?
    && s.disk == t.disk && s.runner == t.runner && |s.commands| == |t.commands|
    && (forall c :: 0 <= c < |s.commands| ==> SameCommand(s, t, c))
    && forall a, b :: Tied(s, t, a, b)
  }

  lemma NextWellFormed(s: State, step: HandleStep)
    requires WellFormed(s) && HandleEnabled(s, step)
    ensures WellFormed(HandleNext(s, step))
    ensures s.live.Some? ==> HandleNext(s, step).live == s.live
    ensures step.Own? ==> Active(s)
  {
  }

  lemma SameView(s: State, t: State)
    requires Same(s, t)
    ensures View(s) == View(t)
  {
    assert Tied(s, t, Registry, Registry);
  }

  lemma SameEnabled(s: State, t: State, step: HandleStep)
    requires Same(s, t)
    ensures HandleEnabled(s, step) <==> HandleEnabled(t, step)
  {
    match step
    case Own(own) =>
      assert Tied(s, t, Tasks, Tasks);
      if HandleEnabled(s, step) { NextWellFormed(s, step); assert OwnView(s) == OwnView(t); }
      if HandleEnabled(t, step) { NextWellFormed(t, step); assert OwnView(s) == OwnView(t); }
    case Begin(_) =>
    case Carry(c) =>
      if c < |s.commands| { assert SameCommand(s, t, c); }
  }

  // A step of start or of a branch task.

  lemma OwnRole(s: State, own: OwnStep, role: Role)
    requires WellFormed(s) && HandleEnabled(s, Own(own))
    requires WellFormed(HandleNext(s, Own(own))) && Present(HandleNext(s, Own(own)), role)
    ensures Present(s, role) && HandleOf(HandleNext(s, Own(own)), role) == HandleOf(s, role)
  {
    NextWellFormed(s, Own(own));
  }

  lemma OwnKeepsTied(s: State, t: State, own: OwnStep, a: Role, b: Role)
    requires Same(s, t) && HandleEnabled(s, Own(own)) && HandleEnabled(t, Own(own))
    requires WellFormed(HandleNext(s, Own(own))) && WellFormed(HandleNext(t, Own(own)))
    requires forall c :: 0 <= c < |s.commands| ==> SameCommand(HandleNext(s, Own(own)), HandleNext(t, Own(own)), c)
    ensures Tied(HandleNext(s, Own(own)), HandleNext(t, Own(own)), a, b)
  {
    var s', t' := HandleNext(s, Own(own)), HandleNext(t, Own(own));
    NextWellFormed(s, Own(own));
    assert Tied(s, t, Tasks, Tasks) && Tied(s, t, a, b) && Tied(s, t, a, Tasks) && Tied(s, t, b, Tasks);
    assert OwnView(s) == OwnView(t);
    if Present(s', a) && Present(s', b) {
      OwnRole(s, own, a);
      OwnRole(s, own, b);
      OwnPresent(s, t, own, a);
      OwnPresent(s, t, own, b);
      OwnRole(t, own, a);
      OwnRole(t, own, b);
    }
  }

  lemma OwnPresent(s: State, t: State, own: OwnStep, role: Role)
    requires Same(s, t) && HandleEnabled(s, Own(own)) && HandleEnabled(t, Own(own))
    requires WellFormed(HandleNext(s, Own(own))) && WellFormed(HandleNext(t, Own(own)))
    requires OwnView(s) == OwnView(t)
    requires forall c :: 0 <= c < |s.commands| ==> SameCommand(HandleNext(s, Own(own)), HandleNext(t, Own(own)), c)
    requires Present(HandleNext(s, Own(own)), role)
    ensures Present(HandleNext(t, Own(own)), role)
  {
    if role.Cmd? { assert SameCommand(HandleNext(s, Own(own)), HandleNext(t, Own(own)), role.c); }
  }

  lemma OwnKeepsCommand(s: State, t: State, own: OwnStep, c: nat)
    requires Same(s, t) && HandleEnabled(s, Own(own)) && HandleEnabled(t, Own(own)) && c < |s.commands|
    requires WellFormed(HandleNext(s, Own(own))) && WellFormed(HandleNext(t, Own(own)))
    ensures SameCommand(HandleNext(s, Own(own)), HandleNext(t, Own(own)), c)
  {
    NextWellFormed(s, Own(own));
    assert SameCommand(s, t, c);
    assert Tied(s, t, Tasks, Tasks) && Tied(s, t, Cmd(c), Tasks);
    assert OwnView(s) == OwnView(t);
  }

  lemma OwnKeepsSame(s: State, t: State, own: OwnStep)
    requires Same(s, t) && HandleEnabled(s, Own(own)) && HandleEnabled(t, Own(own))
    ensures Same(HandleNext(s, Own(own)), HandleNext(t, Own(own)))
  {
    NextWellFormed(s, Own(own));
    NextWellFormed(t, Own(own));
    assert OwnView(s) == OwnView(t) by { assert Tied(s, t, Tasks, Tasks); }
    var s', t' := HandleNext(s, Own(own)), HandleNext(t, Own(own));
    assert s'.disk == t'.disk && s'.runner == t'.runner && s'.commands == s.commands && t'.commands == t.commands;
    hide HandleNext, HandleEnabled, Present, Tied, SameCommand;
    forall c | 0 <= c < |s'.commands|
      ensures SameCommand(s', t', c)
    {
      OwnKeepsCommand(s, t, own, c);
    }
    forall a, b
      ensures Tied(s', t', a, b)
    {
      OwnKeepsTied(s, t, own, a, b);
    }
  }

  // A command gets its handle.

  lemma BeginKeepsSame(s: State, t: State, command: Command)
    requires Same(s, t)
    ensures Same(HandleNext(s, Begin(command)), HandleNext(t, Begin(command)))
  {
    NextWellFormed(s, Begin(command));
    NextWellFormed(t, Begin(command));
    var s', t' := HandleNext(s, Begin(command)), HandleNext(t, Begin(command));
    var n := |s.commands|;
    assert Tied(s, t, Registry, Registry) && Tied(s, t, Registry, Tasks) && Tied(s, t, Tasks, Tasks);
    forall c | 0 <= c < |s'.commands|
      ensures SameCommand(s', t', c)
    {
      if c < n { assert SameCommand(s, t, c); }
    }
    forall a, b
      ensures Tied(s', t', a, b)
    {
      BeginKeepsTied(s, t, command, a, b);
    }
  }

  /** The new command holds the live handle; whatever it can do, it does as the registry's holder. */
  function Before(s: State, role: Role): Role {
    if role == Cmd(|s.commands|) then Registry else role
  }

  lemma BeginRole(s: State, command: Command, role: Role)
    requires WellFormed(s) && s.live.Some? && WellFormed(HandleNext(s, Begin(command)))
    requires Present(HandleNext(s, Begin(command)), role)
    ensures Present(s, Before(s, role)) && HandleOf(HandleNext(s, Begin(command)), role) == HandleOf(s, Before(s, role))
  {
    var s' := HandleNext(s, Begin(command));
    assert role.Cmd? && role.c < |s.commands| ==> s'.commands[role.c] == s.commands[role.c];
  }

  lemma BeginKeepsTied(s: State, t: State, command: Command, a: Role, b: Role)
    requires Same(s, t)
    requires WellFormed(HandleNext(s, Begin(command))) && WellFormed(HandleNext(t, Begin(command)))
    requires forall c :: 0 <= c <= |s.commands| ==> SameCommand(HandleNext(s, Begin(command)), HandleNext(t, Begin(command)), c)
    ensures Tied(HandleNext(s, Begin(command)), HandleNext(t, Begin(command)), a, b)
  {
    var s', t' := HandleNext(s, Begin(command)), HandleNext(t, Begin(command));
    assert Tied(s, t, Before(s, a), Before(s, b));
    if Present(s', a) && Present(s', b) {
      BeginRole(s, command, a);
      BeginRole(s, command, b);
      assert a.Cmd? ==> SameCommand(s', t', a.c);
      assert b.Cmd? ==> SameCommand(s', t', b.c);
      assert Present(t', a) && Present(t', b);
      BeginRole(t, command, a);
      BeginRole(t, command, b);
    }
  }

  // A command runs.

  /** After a write every command on that handle is refused, unless branch tasks still write through it. */
  lemma WrittenRefuses(r: BatchRun, command: Command, other: Command)
    ensures !Passes(Written(r, command), other)
    ensures Passes(r, command) ==> Written(r, command) != r
  {
  }

  lemma CarryRole(s: State, c: nat, role: Role)
    requires WellFormed(s) && HandleEnabled(s, Carry(c)) && WellFormed(HandleNext(s, Carry(c)))
    requires Present(HandleNext(s, Carry(c)), role)
    ensures role != Cmd(c)
    ensures Present(s, role) && HandleOf(HandleNext(s, Carry(c)), role) == HandleOf(s, role)
  {
    var h, command := s.commands[c].handle, s.commands[c].command;
    if role.Cmd? && role != Cmd(c) {
      WrittenRefuses(s.handles[h], command, s.commands[role.c].command);
    }
  }

  lemma CarryRecord(s: State, c: nat, h: nat)
    requires WellFormed(s) && HandleEnabled(s, Carry(c)) && h < |s.handles|
    ensures
      var own, command := s.commands[c].handle, s.commands[c].command;
      HandleNext(s, Carry(c)).handles[h] ==
        if h == own && Passes(s.handles[own], command) then Written(s.handles[own], command) else s.handles[h]
  {
  }

  lemma CarryKeepsCommand(s: State, t: State, c: nat, d: nat)
    requires Same(s, t) && HandleEnabled(s, Carry(c)) && HandleEnabled(t, Carry(c)) && d < |s.commands|
    requires WellFormed(HandleNext(s, Carry(c))) && WellFormed(HandleNext(t, Carry(c)))
    ensures SameCommand(HandleNext(s, Carry(c)), HandleNext(t, Carry(c)), d)
  {
    assert SameCommand(s, t, c) && SameCommand(s, t, d);
    if d != c && s.commands[d].Holds? {
      WrittenRefuses(s.handles[s.commands[c].handle], s.commands[c].command, s.commands[d].command);
      WrittenRefuses(t.handles[t.commands[c].handle], t.commands[c].command, t.commands[d].command);
      assert Tied(s, t, Cmd(c), Cmd(d)) && Tied(s, t, Cmd(d), Cmd(d)) && Tied(s, t, Cmd(c), Cmd(c)) && Tied(s, t, Cmd(d), Tasks) && Tied(s, t, Tasks, Tasks);
      CarryRecord(s, c, s.commands[d].handle);
      CarryRecord(t, c, t.commands[d].handle);
      hide Passes, Written;
    }
  }

  lemma CarryKeepsTied(s: State, t: State, c: nat, a: Role, b: Role)
    requires Same(s, t) && HandleEnabled(s, Carry(c)) && HandleEnabled(t, Carry(c))
    requires WellFormed(HandleNext(s, Carry(c))) && WellFormed(HandleNext(t, Carry(c)))
    requires forall d :: 0 <= d < |s.commands| ==> SameCommand(HandleNext(s, Carry(c)), HandleNext(t, Carry(c)), d)
    ensures Tied(HandleNext(s, Carry(c)), HandleNext(t, Carry(c)), a, b)
  {
    var s', t' := HandleNext(s, Carry(c)), HandleNext(t, Carry(c));
    if Present(s', a) && Present(s', b) {
      CarryRole(s, c, a);
      CarryRole(s, c, b);
      CarryPresent(s, t, c, a);
      CarryPresent(s, t, c, b);
      assert SameCommand(s, t, c);
      assert Tied(s, t, a, b) && Tied(s, t, a, Cmd(c)) && Tied(s, t, Cmd(c), Cmd(c));
      CarryRole(t, c, a);
      CarryRole(t, c, b);
      CarryRecord(s, c, HandleOf(s, a));
      CarryRecord(t, c, HandleOf(t, a));
      hide Passes, Written, HandleNext, HandleEnabled;
    }
  }

  lemma CarryPresent(s: State, t: State, c: nat, role: Role)
    requires Same(s, t) && HandleEnabled(s, Carry(c)) && HandleEnabled(t, Carry(c))
    requires WellFormed(HandleNext(s, Carry(c))) && WellFormed(HandleNext(t, Carry(c)))
    requires forall d :: 0 <= d < |s.commands| ==> SameCommand(HandleNext(s, Carry(c)), HandleNext(t, Carry(c)), d)
    requires Present(HandleNext(s, Carry(c)), role)
    ensures Present(HandleNext(t, Carry(c)), role)
  {
    if role.Cmd? { assert SameCommand(HandleNext(s, Carry(c)), HandleNext(t, Carry(c)), role.c); }
  }

  lemma CarryKeepsSame(s: State, t: State, c: nat)
    requires Same(s, t) && HandleEnabled(s, Carry(c)) && HandleEnabled(t, Carry(c))
    ensures Same(HandleNext(s, Carry(c)), HandleNext(t, Carry(c)))
  {
    NextWellFormed(s, Carry(c));
    NextWellFormed(t, Carry(c));
    var s', t' := HandleNext(s, Carry(c)), HandleNext(t, Carry(c));
    assert s'.disk == t'.disk && s'.runner == t'.runner && |s'.commands| == |t'.commands| == |s.commands| by {
      assert SameCommand(s, t, c) && Tied(s, t, Cmd(c), Cmd(c));
    }
    hide HandleNext, HandleEnabled, Present, Tied, SameCommand;
    forall d | 0 <= d < |s'.commands|
      ensures SameCommand(s', t', d)
    {
      CarryKeepsCommand(s, t, c, d);
    }
    forall a, b
      ensures Tied(s', t', a, b)
    {
      CarryKeepsTied(s, t, c, a, b);
    }
  }

  /** Whatever happens next happens alike. */
  lemma StepKeepsSame(s: State, t: State, step: HandleStep)
    requires Same(s, t) && HandleEnabled(s, step)
    ensures HandleEnabled(t, step) && Same(HandleNext(s, step), HandleNext(t, step))
  {
    SameEnabled(s, t, step);
    hide Same;
    match step
    case Own(own) => OwnKeepsSame(s, t, own);
    case Begin(command) => BeginKeepsSame(s, t, command);
    case Carry(c) => CarryKeepsSame(s, t, c);
  }

  lemma {:induction false} SameReplay(s: State, t: State, steps: seq<HandleStep>)
    requires Same(s, t)
    ensures SameOutcome(Replay(s, steps), Replay(t, steps))
    decreases |steps|
  {
    SameView(s, t);
    hide Same, HandleNext, HandleEnabled;
    if steps != [] {
      SameEnabled(s, t, steps[0]);
      if HandleEnabled(s, steps[0]) {
        StepKeepsSame(s, t, steps[0]);
        SameReplay(HandleNext(s, steps[0]), HandleNext(t, steps[0]), steps[1..]);
      }
    }
  }

  /** States that differ in unused handles only cannot be told apart. */
  lemma SameIsIndistinguishable(s: State, t: State)
    requires Same(s, t)
    ensures Indistinguishable(s, t)
  {
    forall steps
      ensures SameOutcome(Replay(s, steps), Replay(t, steps))
    {
      SameReplay(s, t, steps);
    }
  }

  // ---- When replacing the live handle is harmless ------------------------------------

  /** While start or a branch task may write, its rows are in place, and the row of an unfinished task still runs. */
  ghost predicate OwnShape(s: State)
    requires WellFormed(s)
  {
    Active(s) ==>
      var r := s.handles[s.home];
      && r.branches != []
      && (forall i :: 0 <= i < |r.branches| ==> r.branches[i].index == i)
      && (!s.runner.Spawned? ==> forall i :: 0 <= i < |r.branches| ==> r.branches[i].status.BranchRunning?)
      && (s.runner.Spawned? ==>
            && |s.runner.tasks| == |r.branches|
            && forall i :: 0 <= i < |s.runner.tasks| && !s.runner.tasks[i].Finalized? ==> r.branches[i].status.BranchRunning?)
  }

  /** The live record is what was read, reconciled, and nobody else may still write through its handle. */
  ghost predicate Replaceable(s: State, read: BatchRun, writeBack: bool)
    requires WellFormed(s) && s.live.Some?
  {
    && s.handles[s.live.value] == Reconciled(read)
    && (writeBack ==> s.disk == Some(Reconciled(read)))
    && Unheld(s)
  }

  lemma ReplacedRole(s: State, read: BatchRun, writeBack: bool, role: Role)
    requires WellFormed(s) && s.live.Some?
    ensures WellFormed(Replace(s, read, writeBack))
    ensures Present(Replace(s, read, writeBack), role) <==> Present(s, role)
    ensures Present(s, role) ==>
              HandleOf(Replace(s, read, writeBack), role) == if role == Registry then |s.handles| else HandleOf(s, role)
  {
    if role.Cmd? && role.c < |s.commands| && s.commands[role.c].Holds? {
      assert Replace(s, read, writeBack).handles[s.commands[role.c].handle] == s.handles[s.commands[role.c].handle];
    }
  }

  lemma ReplaceableIsSame(s: State, read: BatchRun, writeBack: bool)
    requires WellFormed(s) && s.live.Some? && Replaceable(s, read, writeBack)
    ensures Same(Replace(s, read, writeBack), s)
  {
    var t := Replace(s, read, writeBack);
    ReplacedRole(s, read, writeBack, Registry);
    forall c | 0 <= c < |s.commands|
      ensures SameCommand(t, s, c)
    {
      ReplacedRole(s, read, writeBack, Cmd(c));
    }
    forall a, b
      ensures Tied(t, s, a, b)
    {
      ReplacedRole(s, read, writeBack, a);
      ReplacedRole(s, read, writeBack, b);
    }
  }

  /** How far the branch tasks are from changing their record. */
  ghost function Rank(runner: Runner): nat {
    match runner
    case NoRunner => 0
    case Registered => 4
    case Persisted => 3
    case Spawned(tasks) => if exists i :: 0 <= i < |tasks| && (tasks[i].Executing? || tasks[i].Observed?) then 1 else 2
  }

  lemma OwnStepSees(s: State, own: OwnStep)
    requires WellFormed(s) && HandleEnabled(s, Own(own)) && s.live.Some?
    ensures HandleNext(s, Own(own)).live == s.live && HandleNext(s, Own(own)).home == s.home
    ensures
      View(HandleNext(s, Own(own))).0 == if s.live.value == s.home then OwnNext(OwnView(s), own).mem else View(s).0
    ensures OwnView(HandleNext(s, Own(own))) == OwnNext(OwnView(s), own)
  {
  }

  /** The next step towards a change of the record. */
  ghost function NextOwn(s: State): OwnStep
    requires WellFormed(s) && Active(s)
  {
    match s.runner
    case Registered => PersistFirst
    case Persisted => SpawnTasks
    case Spawned(tasks) =>
      if exists i :: 0 <= i < |tasks| && (tasks[i].Executing? || tasks[i].Observed?) then
        var i: nat :| i < |tasks| && (tasks[i].Executing? || tasks[i].Observed?);
        if tasks[i].Executing? then Spend(i, 1.0) else Finish(i, None, None)
      else
        var i: nat :| i < |tasks| && !tasks[i].Finalized?;
        Acquire(i)
  }

  lemma SpendChanges(r: BatchRun, i: nat)
    requires i < |r.branches| && forall j :: 0 <= j < |r.branches| ==> r.branches[j].index == j
    ensures WithSpend(r, i, 1.0) != r
  {
    FindIsPosition(r.branches, i);
    assert WithSpend(r, i, 1.0).branches[i].spent != r.branches[i].spent;
  }

  lemma FinishChanges(r: BatchRun, i: nat, obs: Observation, summary: Option<DiffSummary>, item: Option<nat>)
    requires i < |r.branches| && forall j :: 0 <= j < |r.branches| ==> r.branches[j].index == j
    requires r.branches[i].status.BranchRunning?
    ensures WithOutcome(r, i, obs, summary).(inboxItem := item) != r
  {
    FindIsPosition(r.branches, i);
    assert !WithFinalBranch(r, i, obs, summary).branches[i].status.BranchRunning?;
  }

  /** The chosen step is enabled; it changes the record, or leaves record and shape and comes closer. */
  lemma NextOwnAdvances(s: State)
    requires WellFormed(s) && Active(s) && OwnShape(s)
    ensures HandleEnabled(s, Own(NextOwn(s)))
    ensures
      var b := OwnNext(OwnView(s), NextOwn(s));
      if Rank(s.runner) == 1 then b.mem != Some(s.handles[s.home])
      else
        && b.mem == Some(s.handles[s.home])
        && Active(HandleNext(s, Own(NextOwn(s)))) && Rank(HandleNext(s, Own(NextOwn(s))).runner) < Rank(s.runner)
        && WellFormed(HandleNext(s, Own(NextOwn(s)))) && OwnShape(HandleNext(s, Own(NextOwn(s))))
  {
    var own, r := NextOwn(s), s.handles[s.home];
    match own
    case PersistFirst =>
    case SpawnTasks => assert seq(|r.branches|, _ => Queued)[0] == Queued;
    case Spend(i, _) => SpendChanges(r, i);
    case Finish(i, summary, item) => FinishChanges(r, i, s.runner.tasks[i].obs, summary, item);
    case Acquire(i) => assert SetTask(OwnView(s), i, Executing).runner.tasks[i] == Executing;
    case _ =>
  }

  /** Held by the tasks in one state and merely equal in the other: some continuation shows it. */
  lemma TasksTellApart(x: State, y: State) returns (steps: seq<HandleStep>)
    requires WellFormed(x) && WellFormed(y) && Active(y) && OwnShape(y)
    requires x.live.Some? && y.live.Some? && OwnView(x) == OwnView(y) && View(x) == View(y) && x.home == y.home
    requires y.live.value == y.home && x.live.value != x.home
    ensures !SameOutcome(Replay(x, steps), Replay(y, steps))
    decreases Rank(y.runner)
  {
    NextOwnAdvances(y);
    var own := NextOwn(y);
    assert HandleEnabled(x, Own(own));
    OwnStepSees(x, own);
    OwnStepSees(y, own);
    NextWellFormed(x, Own(own));
    NextWellFormed(y, Own(own));
    var x', y' := HandleNext(x, Own(own)), HandleNext(y, Own(own));
    hide HandleNext, HandleEnabled, OwnNext, OwnView, NextOwn, OwnShape;
    if Rank(y.runner) == 1 {
      steps := [Own(own)];
      assert steps[1..] == [];
      assert View(x').0 != View(y').0;
    } else {
      var rest := TasksTellApart(x', y');
      steps := [Own(own)] + rest;
      assert steps[1..] == rest;
    }
  }

  /** A command about to write through the replaced handle: its write is shown in one state only. */
  lemma CommandTellsApart(s: State, read: BatchRun, writeBack: bool, c: nat)
    requires WellFormed(s) && s.live.Some?
    requires s.handles[s.live.value] == Reconciled(read)
    requires c < |s.commands| && s.commands[c].Holds? && s.commands[c].handle == s.live.value
    requires Passes(s.handles[s.live.value], s.commands[c].command)
    ensures !SameOutcome(Replay(Replace(s, read, writeBack), [Carry(c)]), Replay(s, [Carry(c)]))
  {
    var r, x := s.handles[s.live.value], Replace(s, read, writeBack);
    WrittenRefuses(r, s.commands[c].command, s.commands[c].command);
    assert x.handles[s.live.value] == r && x.handles[|s.handles|] == r;
    assert [Carry(c)][1..] == [];
    CarryRecord(x, c, |s.handles|);
    CarryRecord(s, c, s.live.value);
  }

  /**
   Replacing the live handle, as the second half of `list` (with write-back) and
   of `get_or_load` (without) do, cannot be told from leaving it alone exactly
   when the live record is what was read, reconciled, and nobody may still write
   through its handle.
   */
  lemma ReplaceIsAtomicIff(s: State, read: BatchRun, writeBack: bool)
    requires WellFormed(s) && s.live.Some? && OwnShape(s)
    ensures Indistinguishable(Replace(s, read, writeBack), AtomicLoad(s, writeBack)) <==> Replaceable(s, read, writeBack)
  {
    if Replaceable(s, read, writeBack) {
      ReplaceableIsSame(s, read, writeBack);
      SameIsIndistinguishable(Replace(s, read, writeBack), s);
    } else {
      var steps := TellApart(s, read, writeBack);
    }
  }

  /** Otherwise some continuation tells them apart: at once, by a branch task, or by a command in flight. */
  lemma TellApart(s: State, read: BatchRun, writeBack: bool) returns (steps: seq<HandleStep>)
    requires WellFormed(s) && s.live.Some? && OwnShape(s) && !Replaceable(s, read, writeBack)
    ensures !SameOutcome(Replay(Replace(s, read, writeBack), steps), Replay(s, steps))
  {
    var x := Replace(s, read, writeBack);
    if View(x) != View(s) {
      steps := [];
    } else {
      var role :| role != Registry && Present(s, role) && HandleOf(s, role) == s.live.value;
      ReplacedRole(s, read, writeBack, Registry);
      if Active(s) && s.home == s.live.value {
        steps := TasksTellApart(x, s);
      } else {
        steps := [Carry(role.c)];
        CommandTellsApart(s, read, writeBack, role.c);
      }
    }
  }

  // ---- One record per batch -------------------------------------------------------------

  /** The batch as the registry shows it. */
  function Seen(s: State): BatchState
    requires WellFormed(s)
  {
    BatchState(View(s).0, s.disk, s.runner)
  }

  /** The rules of the value-level protocol hold, and everyone who may still write does it through the live handle. */
  ghost predicate Coherent(id: string, s: State) {
    && WellFormed(s) && BatchInv(id, Seen(s))
    && (Active(s) ==> s.live == Some(s.home))
    && forall c :: 0 <= c < |s.commands| && s.commands[c].Holds? && MayWrite(s, c) ==> s.live == Some(s.commands[c].handle)
  }

  /** A batch right after `register`. */
  function Started(r: BatchRun): State {
    State([r], Some(0), None, Registered, 0, [])
  }

  lemma StartedIsCoherent(r: BatchRun)
    requires FreshRecord(r)
    ensures Coherent(r.batchId, Started(r))
  {
    FreshBatchInv(r);
  }

  /** The protocol's step for a step through the handle of start and the tasks. */
  function ProtocolStep(id: string, own: OwnStep): Step {
    match own
    case PersistFirst => FirstPersist(id)
    case SpawnTasks => BatchProtocol.Spawn(id)
    case Acquire(i) => AcquirePermit(id, i)
    case QueueFails(i, message) => QueueError(id, i, message)
    case Spend(i, cost) => FoldSpend(id, i, cost)
    case Ends(i, obs) => EngineEnds(id, i, obs)
    case Finish(i, summary, _) => FinalizeBranch(id, i, summary, true)
  }

  lemma OwnNextMoves(id: string, b: BatchState, own: OwnStep)
    requires OwnEnabled(b, own)
    ensures BatchMove(id, b, OwnNext(b, own), ProtocolStep(id, own))
  {
  }

  /** While start and tasks hold the live handle, what the registry shows moves as the protocol says. */
  lemma OwnKeepsCoherent(id: string, s: State, own: OwnStep)
    requires Coherent(id, s) && HandleEnabled(s, Own(own))
    ensures BatchMove(id, Seen(s), Seen(HandleNext(s, Own(own))), ProtocolStep(id, own))
    ensures Coherent(id, HandleNext(s, Own(own)))
  {
    var s' := HandleNext(s, Own(own));
    NextWellFormed(s, Own(own));
    OwnStepSees(s, own);
    OwnNextMoves(id, Seen(s), own);
    assert OwnView(s) == Seen(s) && Seen(s') == OwnNext(Seen(s), own);
    MoveKeepsBatch(id, Seen(s), Seen(s'), ProtocolStep(id, own));
    hide BatchInv, OwnNext;
    forall c | 0 <= c < |s'.commands| && s'.commands[c].Holds? && MayWrite(s', c)
      ensures s'.live == Some(s'.commands[c].handle)
    {
      OwnRole(s, own, Cmd(c));
    }
  }

  lemma BeginKeepsCoherent(id: string, s: State, command: Command)
    requires Coherent(id, s) && HandleEnabled(s, Begin(command))
    ensures Seen(HandleNext(s, Begin(command))) == Loaded(Seen(s))
    ensures Coherent(id, HandleNext(s, Begin(command)))
  {
    var s' := HandleNext(s, Begin(command));
    LoadedKeepsBatch(id, Seen(s));
    hide BatchInv;
    forall c | 0 <= c < |s'.commands| && s'.commands[c].Holds? && MayWrite(s', c)
      ensures s'.live == Some(s'.commands[c].handle)
    {
      if c < |s.commands| { assert MayWrite(s, c); }
    }
  }

  lemma CarryKeepsCoherent(id: string, s: State, c: nat)
    requires Coherent(id, s) && HandleEnabled(s, Carry(c))
    ensures
      var r, command := s.handles[s.commands[c].handle], s.commands[c].command;
      Seen(HandleNext(s, Carry(c))) == if Passes(r, command) then Persist(Seen(s), Written(r, command)) else Seen(s)
    ensures Coherent(id, HandleNext(s, Carry(c)))
  {
    var s' := HandleNext(s, Carry(c));
    var r, command := s.handles[s.commands[c].handle], s.commands[c].command;
    NextWellFormed(s, Carry(c));
    if Passes(r, command) {
      assert MayWrite(s, c);
      match command
      case AdoptCommand(index) => AdoptKeepsBatch(id, Seen(s), index);
      case DiscardCommand => DiscardKeepsBatch(id, Seen(s));
    }
    hide BatchInv, Passes, Written;
    forall d | 0 <= d < |s'.commands| && s'.commands[d].Holds? && MayWrite(s', d)
      ensures s'.live == Some(s'.commands[d].handle)
    {
      CarryRole(s, c, Cmd(d));
    }
  }

  /** Without the races one record per batch is what everyone sees and writes. */
  lemma StepKeepsCoherent(id: string, s: State, step: HandleStep)
    requires Coherent(id, s) && HandleEnabled(s, step)
    ensures Coherent(id, HandleNext(s, step))
  {
    hide Coherent, HandleNext;
    match step
    case Own(own) => OwnKeepsCoherent(id, s, own);
    case Begin(command) => BeginKeepsCoherent(id, s, command);
    case Carry(c) => CarryKeepsCoherent(id, s, c);
  }

  lemma CoherentShape(id: string, s: State)
    requires Coherent(id, s)
    ensures OwnShape(s)
  {
    if Active(s) && s.runner.Spawned? {
      assert forall i :: 0 <= i < |s.runner.tasks| ==> TaskMatches(s.runner.tasks[i], s.handles[s.home].branches[i]);
    }
  }

  lemma {:induction false} ReplayKeepsCoherent(id: string, s: State, steps: seq<HandleStep>)
    requires Coherent(id, s)
    ensures Replay(s, steps).Some? ==> Coherent(id, Replay(s, steps).value)
    decreases |steps|
  {
    hide Coherent, HandleNext, HandleEnabled;
    if steps != [] && HandleEnabled(s, steps[0]) {
      StepKeepsCoherent(id, s, steps[0]);
      ReplayKeepsCoherent(id, HandleNext(s, steps[0]), steps[1..]);
    }
  }

  /** Nobody else holds the handle of a coherent batch: its tasks are done, memory and disk tell the same story. */
  lemma UnheldIsSettled(id: string, s: State)
    requires Coherent(id, s) && s.live.Some? && s.disk.Some? && Unheld(s)
    ensures !Active(s) && !s.handles[s.live.value].status.Running?
    ensures s.handles[s.live.value] == Reconciled(s.disk.value)
    ensures s.runner.Spawned? ==> s.handles[s.live.value] == s.disk.value
  {
    var b, r := Seen(s), s.handles[s.live.value];
    assert !Active(s) by {
      assert Present(s, Tasks) ==> HandleOf(s, Tasks) != s.live.value;
    }
    ReconcileLaws(s.disk.value);
    if s.runner.Spawned? {
      forall i | 0 <= i < |r.branches|
        ensures !r.branches[i].status.BranchRunning? && r.branches[i] == s.disk.value.branches[i]
      {
        assert TaskMatches(s.runner.tasks[i], r.branches[i]);
      }
      assert r.branches == s.disk.value.branches;
      assert AllTerminal(r.branches);
    }
  }

  /**
   In a batch without races before, the second half of `list` or of `get_or_load`
   cannot be told from the atomic step exactly when neither start, a branch task
   nor a command may still write through the live handle, and what it read is
   still the record (for `list`, still on disk). A record read just now is, unless
   `list` would rewrite it.
   */
  lemma LateLoadIsAtomicIff(id: string, s: State, read: BatchRun, writeBack: bool)
    requires Coherent(id, s) && s.live.Some? && s.disk.Some?
    ensures Indistinguishable(Replace(s, read, writeBack), AtomicLoad(s, writeBack))
            <==> Unheld(s) && s.handles[s.live.value] == Reconciled(read) && (writeBack ==> s.disk == Some(Reconciled(read)))
    ensures s.disk == Some(read) ==>
              (Indistinguishable(Replace(s, read, writeBack), AtomicLoad(s, writeBack))
               <==> Unheld(s) && (writeBack ==> !read.status.Running?))
  {
    CoherentShape(id, s);
    ReplaceIsAtomicIff(s, read, writeBack);
    ReconcileLaws(s.disk.value);
    if Unheld(s) { UnheldIsSettled(id, s); }
  }

  /** With the record now on disk it leaves one record per batch exactly when nobody may still write through the live handle. */
  lemma LateLoadIsSafeIff(id: string, s: State, writeBack: bool)
    requires Coherent(id, s) && s.live.Some? && s.disk.Some?
    ensures Coherent(id, Replace(s, s.disk.value, writeBack)) <==> Unheld(s)
  {
    var x := Replace(s, s.disk.value, writeBack);
    ReplacedRole(s, s.disk.value, writeBack, Registry);
    if Unheld(s) {
      UnheldIsSettled(id, s);
      BatchTheorems.ReloadKeepsBatchIff(id, Seen(s));
      forall c | 0 <= c < |x.commands| && x.commands[c].Holds?
        ensures !MayWrite(x, c)
      {
        ReplacedRole(s, s.disk.value, writeBack, Cmd(c));
        assert !Present(s, Cmd(c));
      }
    } else {
      var role :| role != Registry && Present(s, role) && HandleOf(s, role) == s.live.value;
      ReplacedRole(s, s.disk.value, writeBack, role);
      if role.Cmd? {
        assert MayWrite(x, role.c) && x.live != Some(x.commands[role.c].handle);
      }
    }
  }

  // ---- Witnesses --------------------------------------------------------------------------

  /** A started batch whose first branch executes, discarded in flight. */
  function DiscardedInFlight(r: BatchRun): State
    requires r.branches != []
  {
    var tasks := seq(|r.branches|, _ => Queued)[0 := Executing];
    State([DiscardedRecord(r)], Some(0), Some(DiscardedRecord(r)), Spawned(tasks), 0, [Ended])
  }

  /** The registered and persisted batch of one handle, its branch tasks at `runner`. */
  function OneHandle(r: BatchRun, runner: Runner, commands: seq<InFlight>): State {
    State([r], Some(0), Some(r), runner, 0, commands)
  }

  lemma StartUpToDiscard(r: BatchRun)
    requires FreshRecord(r)
    ensures
      var queued: seq<Task> := seq(|r.branches|, _ => Queued);
      var s1, s2 := OneHandle(r, Persisted, []), OneHandle(r, Spawned(queued), []);
      var s3 := OneHandle(r, Spawned(queued[0 := Executing]), []);
      && HandleEnabled(Started(r), Own(PersistFirst)) && HandleNext(Started(r), Own(PersistFirst)) == s1
      && HandleEnabled(s1, Own(SpawnTasks)) && HandleNext(s1, Own(SpawnTasks)) == s2
      && HandleEnabled(s2, Own(Acquire(0))) && HandleNext(s2, Own(Acquire(0))) == s3
  {
    assert [r][0 := r] == [r];
  }

  lemma DiscardInFlight(r: BatchRun)
    requires FreshRecord(r)
    ensures
      var queued: seq<Task> := seq(|r.branches|, _ => Queued);
      var s3 := OneHandle(r, Spawned(queued[0 := Executing]), []);
      var s4 := OneHandle(r, Spawned(queued[0 := Executing]), [Holds(0, DiscardCommand)]);
      && HandleEnabled(s3, Begin(DiscardCommand)) && HandleNext(s3, Begin(DiscardCommand)) == s4
      && HandleEnabled(s4, Carry(0)) && HandleNext(s4, Carry(0)) == DiscardedInFlight(r)
  {
    assert [r][0 := DiscardedRecord(r)] == [DiscardedRecord(r)] && [Holds(0, DiscardCommand)][0 := Ended] == [Ended];
  }

  lemma DiscardedInFlightIsReached(r: BatchRun)
    requires FreshRecord(r)
    ensures Replay(Started(r), [Own(PersistFirst), Own(SpawnTasks), Own(Acquire(0)), Begin(DiscardCommand), Carry(0)]) == Some(DiscardedInFlight(r))
  {
    var queued: seq<Task> := seq(|r.branches|, _ => Queued);
    StartUpToDiscard(r);
    DiscardInFlight(r);
    hide HandleNext, HandleEnabled, DiscardedInFlight, OneHandle, Started;
    var s3 := OneHandle(r, Spawned(queued[0 := Executing]), []);
    ReplayOne(OneHandle(r, Spawned(queued[0 := Executing]), [Holds(0, DiscardCommand)]), Carry(0), []);
    ReplayOne(s3, Begin(DiscardCommand), [Carry(0)]);
    ReplayOne(OneHandle(r, Spawned(queued), []), Own(Acquire(0)), [Begin(DiscardCommand), Carry(0)]);
    ReplayOne(OneHandle(r, Persisted, []), Own(SpawnTasks), [Own(Acquire(0)), Begin(DiscardCommand), Carry(0)]);
    ReplayOne(Started(r), Own(PersistFirst), [Own(SpawnTasks), Own(Acquire(0)), Begin(DiscardCommand), Carry(0)]);
  }

  lemma {:induction false} ReplayOne(s: State, step: HandleStep, rest: seq<HandleStep>)
    requires HandleEnabled(s, step)
    ensures Replay(s, [step] + rest) == Replay(HandleNext(s, step), rest)
    ensures Replay(s, [step]) == Replay(HandleNext(s, step), [])
  {
    assert [step][1..] == [];
    assert ([step] + rest)[1..] == rest;
  }

  /**
   `list` takes its snapshot; a batch starts, its first branch executes, and the
   user discards it; `list` goes on. Record and disk agree, so nothing shows, but
   the branch finishes on the old handle: the registry keeps a running row that
   the disk has finished.
   */
  lemma DiscardedBatchDiverges(r: BatchRun, obs: Observation) returns (after: State)
    requires FreshRecord(r)
    ensures View(Replace(DiscardedInFlight(r), DiscardedRecord(r), true)) == View(DiscardedInFlight(r))
    ensures Replay(Replace(DiscardedInFlight(r), DiscardedRecord(r), true), [Own(Ends(0, obs)), Own(Finish(0, None, None))]) == Some(after)
    ensures View(after).0 == Some(DiscardedRecord(r)) && r.branches != [] && r.branches[0].status.BranchRunning?
    ensures after.disk.Some? && after.disk.value.branches != [] && !after.disk.value.branches[0].status.BranchRunning?
    ensures View(after).0 != Some(Reconciled(after.disk.value))
  {
    var x := Replace(DiscardedInFlight(r), DiscardedRecord(r), true);
    var tasks := x.runner.tasks;
    assert tasks[0] == Executing && Reconciled(DiscardedRecord(r)) == DiscardedRecord(r);
    assert x == State([DiscardedRecord(r), DiscardedRecord(r)], Some(1), Some(DiscardedRecord(r)), Spawned(tasks), 0, [Ended]);
    var x1 := x.(runner := Spawned(tasks[0 := Observed(obs)]));
    assert x.handles[0 := DiscardedRecord(r)] == x.handles;
    assert x1 == HandleNext(x, Own(Ends(0, obs)));
    after := HandleNext(x1, Own(Finish(0, None, None)));
    ReplayOne(x1, Own(Finish(0, None, None)), []);
    ReplayOne(x, Own(Ends(0, obs)), [Own(Finish(0, None, None))]);
    assert [Own(Finish(0, None, None))] + [] == [Own(Finish(0, None, None))];
    assert [Own(Ends(0, obs))] + [Own(Finish(0, None, None))] == [Own(Ends(0, obs)), Own(Finish(0, None, None))];
    FindIsPosition(r.branches, 0);
    var done := WithOutcome(DiscardedRecord(r), 0, obs, None).(inboxItem := None);
    assert after.disk == Some(done) && done.status.Discarded?;
    assert done.branches[0] == FinalBranch(r.branches[0], obs, None);
  }

  /**
   After a restart an adopt and a discard each load and register their own
   handle. The records are equal, yet both commands pass: the adoption is
   written, and then the discard, which goes by the other handle.
   */
  lemma TwoHandlesTwoCommands(r: BatchRun, index: nat) returns (first: State, last: State)
    requires AdoptCheck(r, index).Ok?
    ensures
      var restarted := State([], None, Some(r), NoRunner, 0, []);
      && HandleEnabled(restarted, Begin(AdoptCommand(index))) && first == HandleNext(restarted, Begin(AdoptCommand(index)))
    ensures View(Replace(first, r, false)) == View(first)
    ensures
      var second := Replace(first, r, false);
      && HandleEnabled(second, Begin(DiscardCommand))
      && var both := HandleNext(second, Begin(DiscardCommand));
         && HandleEnabled(both, Carry(0))
         && var adopted := HandleNext(both, Carry(0));
            && adopted.disk == Some(AdoptedRecord(r, index))
            && HandleEnabled(adopted, Carry(1)) && last == HandleNext(adopted, Carry(1))
    ensures last.disk == Some(DiscardedRecord(r))
  {
    var restarted := State([], None, Some(r), NoRunner, 0, []);
    assert Reconciled(r) == r;
    first := HandleNext(restarted, Begin(AdoptCommand(index)));
    var adopt, discard := Holds(0, AdoptCommand(index)), Holds(1, DiscardCommand);
    assert first == State([r], Some(0), Some(r), NoRunner, 0, [adopt]);
    var second := Replace(first, r, false);
    assert second == State([r, r], Some(1), Some(r), NoRunner, 0, [adopt]);
    var both := HandleNext(second, Begin(DiscardCommand));
    assert both == State([r, r], Some(1), Some(r), NoRunner, 0, [adopt, discard]);
    var adopted := HandleNext(both, Carry(0));
    var a := AdoptedRecord(r, index);
    assert [r, r][0 := a] == [a, r] && [adopt, discard][0 := Ended] == [Ended, discard];
    assert adopted == State([a, r], Some(1), Some(a), NoRunner, 0, [Ended, discard]);
    last := HandleNext(adopted, Carry(1));
  }

  /**
   After a restart `list` reads a finished batch from disk; the user adopts a
   branch of it; `list` goes on. The adoption is gone, from the registry and from
   disk.
   */
  lemma StaleReadForgetsAdoption(r: BatchRun, index: nat) returns (adopted: State)
    requires AdoptCheck(r, index).Ok?
    ensures Replay(State([], None, Some(r), NoRunner, 0, []), [Begin(AdoptCommand(index)), Carry(0)]) == Some(adopted)
    ensures View(adopted) == (Some(AdoptedRecord(r, index)), Some(AdoptedRecord(r, index)))
    ensures View(Replace(adopted, r, true)) == (Some(r), Some(r)) && r != AdoptedRecord(r, index)
  {
    var restarted := State([], None, Some(r), NoRunner, 0, []);
    var loaded := HandleNext(restarted, Begin(AdoptCommand(index)));
    assert loaded.handles == [r] && loaded.commands == [Holds(0, AdoptCommand(index))];
    adopted := HandleNext(loaded, Carry(0));
    assert [] + [Carry(0)] == [Carry(0)] && [Begin(AdoptCommand(index))] + [Carry(0)] == [Begin(AdoptCommand(index)), Carry(0)];
    ReplayOne(loaded, Carry(0), []);
    ReplayOne(restarted, Begin(AdoptCommand(index)), [Carry(0)]);
  }
}
