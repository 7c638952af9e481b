/**
 The session of `SessionLatch` at the grain of its locks. A stop reads the token
 slot, fires what it took, reads the latch and raises the flag one after the
 other; a deletion takes and fires; an exit drops latch, token and flag. Any
 number of stops, deletions and exits of older runs overlap.

 `Slip` lists the five moments at which that goes wrong. `SafeStepIff` proves
 the list exact, and `SafeRunIff` that a run without slips keeps what the coarse
 grain promises.
 */
module SessionFine {
  import opened Common
  import opened SessionLatch

  // ---- State -------------------------------------------------------------

  /**
   A stop or deletion on its way. `epoch` is history: the run that held the
   latch when the stop looked at the token slot.
   */
  datatype Cancel =
    | Took(token: nat)
    | FoundNone(epoch: Option<nat>)
    | SawLatch(epoch: Option<nat>)
    | Settled

  datatype Fine = Fine(session: Session, cancels: seq<Cancel>)

  datatype FineStep =
    | Run(step: Step)
    | StopTake
    | DeleteTake
    | Fire(i: nat)
    | ReadLatch(i: nat)
    | Mark(i: nat)
    | ExitLatch(run: nat)
    | ExitToken(run: nat)
    | ExitPending(run: nat)

  const START := Fine(IDLE, [])

  predicate FineEnabled(f: Fine, step: FineStep) {
    match step
    case Run(c) => !c.Stop? && !c.Delete? && !c.Exit? && Enabled(f.session, c)
    case StopTake => true
    case DeleteTake => true
    case Fire(i) => i < |f.cancels| && f.cancels[i].Took?
    case ReadLatch(i) => i < |f.cancels| && f.cancels[i].FoundNone?
    case Mark(i) => i < |f.cancels| && f.cancels[i].SawLatch?
    case ExitLatch(r) => At(f.session, r, Leaving)
    case ExitToken(r) => At(f.session, r, LatchDropped)
    case ExitPending(r) => At(f.session, r, TokenDropped)
  }

  /** The run that holds the latch. */
  function Holder(s: Session): Option<nat> {
    if s.querying && s.runs != [] then Some(|s.runs| - 1) else None
  }

  /** A stop is a stop of the run that holds the latch, and of the run whose token it takes. */
  function StoppedBy(s: Session): set<nat> {
    Marked(s) + if s.token.Some? then {s.token.value} else {}
  }

  function FineNext(f: Fine, step: FineStep): Fine
    requires FineEnabled(f, step)
  {
    var s := f.session;
    match step
    case Run(c) => f.(session := Next(s, c))
    case StopTake =>
      if s.token.Some?
      then Fine(s.(token := None, stopped := StoppedBy(s)), f.cancels + [Took(s.token.value)])
      else Fine(s.(stopped := StoppedBy(s)), f.cancels + [FoundNone(Holder(s))])
    case DeleteTake =>
      if s.token.Some?
      then Fine(s.(token := None, deleted := s.deleted + {s.token.value}), f.cancels + [Took(s.token.value)])
      else f
    case Fire(i) => Fine(s.(fired := s.fired + {f.cancels[i].token}), f.cancels[i := Settled])
    case ReadLatch(i) => f.(cancels := f.cancels[i := if s.querying then SawLatch(f.cancels[i].epoch) else Settled])
    case Mark(i) => Fine(s.(pending := true), f.cancels[i := Settled])
    case ExitLatch(r) => f.(session := Moved(s, r, LatchDropped).(querying := false))
    case ExitToken(r) => f.(session := Moved(s, r, TokenDropped).(token := None))
    case ExitPending(r) => f.(session := Moved(s, r, Done).(pending := false))
  }

  ghost predicate FineMove(f: Fine, step: FineStep, f': Fine) {
    FineEnabled(f, step) && f' == FineNext(f, step)
  }

  ghost predicate IsFineRun(states: seq<Fine>, steps: seq<FineStep>) {
    && |states| == |steps| + 1
    && states[0] == START
    && forall k :: 0 <= k < |steps| ==> FineMove(states[k], steps[k], states[k + 1])
  }

  // ---- The parts compose to the coarse steps --------------------------------

  /** With no step in between, the parts of a stop are the atomic one. */
  lemma StopPartsCompose(f: Fine)
    requires Inv(f.session)
    ensures
      var i, taken := |f.cancels|, FineNext(f, StopTake);
      if f.session.token.Some?
      then FineEnabled(taken, Fire(i)) && FineNext(taken, Fire(i)).session == Next(f.session, Stop)
      else
        FineEnabled(taken, ReadLatch(i)) &&
        var read := FineNext(taken, ReadLatch(i));
        if f.session.querying
        then FineEnabled(read, Mark(i)) && FineNext(read, Mark(i)).session == Next(f.session, Stop)
        else read.session == Next(f.session, Stop)
  {
    assert f.session.token.Some? ==> StoppedBy(f.session) == Marked(f.session);
  }

  lemma DeletePartsCompose(f: Fine)
    ensures
      var i, taken := |f.cancels|, FineNext(f, DeleteTake);
      if f.session.token.Some?
      then FineEnabled(taken, Fire(i)) && FineNext(taken, Fire(i)).session == Next(f.session, Delete)
      else taken.session == Next(f.session, Delete)
  {
  }

  /** With no step in between, the three parts of the exit block are the atomic one. */
  lemma ExitPartsCompose(f: Fine, r: nat)
    requires At(f.session, r, Leaving)
    ensures
      var a := FineNext(f, ExitLatch(r));
      FineEnabled(a, ExitToken(r)) &&
      var b := FineNext(a, ExitToken(r));
      FineEnabled(b, ExitPending(r)) &&
      FineNext(b, ExitPending(r)) == f.(session := Next(f.session, Exit(r)))
  {
    var s := f.session;
    assert s.runs[r := LatchDropped][r := TokenDropped][r := Done] == s.runs[r := Done];
  }

  // ---- What holds at this grain without condition ----------------------------

  ghost predicate Latches(s: Session) {
    && (s.querying <==> s.runs != [] && Active(s.runs[|s.runs| - 1]))
    && forall r :: 0 <= r < |s.runs| && (r < |s.runs| - 1 || !s.querying) ==> !Active(s.runs[r])
  }

  /** The slot holds the token of the newest run that stored one, until that run's exit drops it. */
  ghost predicate Slot(s: Session) {
    s.token.Some? ==>
      && s.token.value < |s.runs|
      && s.runs[s.token.value] in {TokenStored, Streaming, Leaving, LatchDropped}
      && (s.token.value < |s.runs| - 1 ==> s.token.value == |s.runs| - 2 && s.runs[|s.runs| - 1] == Latched)
  }

  ghost predicate Known(s: Session) {
    && (forall r :: r in s.stopped ==> r < |s.runs|)
    && (forall r :: r in s.deleted ==> r < |s.runs|)
    && (forall r :: r in s.fired ==> r < |s.runs| && s.runs[r] != Latched)
    && (forall r :: r in s.overBudget ==> r < |s.runs| && s.runs[r] !in {Latched, TokenStored})
  }

  /** A command in flight is recorded in the history of the run it is about. */
  ghost predicate CancelFits(s: Session, c: Cancel) {
    match c
    case Took(t) => t < |s.runs| && s.runs[t] != Latched && (t in s.stopped || t in s.deleted)
    case FoundNone(epoch) => epoch.Some? ==> epoch.value in s.stopped
    case SawLatch(epoch) => epoch.Some? ==> epoch.value in s.stopped
    case Settled => true
  }

  ghost predicate FineInv(f: Fine) {
    && Latches(f.session) && Slot(f.session) && Known(f.session)
    && forall i :: 0 <= i < |f.cancels| ==> CancelFits(f.session, f.cancels[i])
  }

  lemma StepKeepsLatches(f: Fine, step: FineStep)
    requires FineInv(f) && FineEnabled(f, step)
    ensures Latches(FineNext(f, step).session)
  {
  }

  lemma StepKeepsSlot(f: Fine, step: FineStep)
    requires FineInv(f) && FineEnabled(f, step)
    ensures Slot(FineNext(f, step).session)
  {
  }

  lemma RunKeepsKnown(f: Fine, c: Step)
    requires FineInv(f) && FineEnabled(f, Run(c))
    ensures Known(Next(f.session, c))
  {
  }

  lemma StepKeepsKnown(f: Fine, step: FineStep)
    requires FineInv(f) && FineEnabled(f, step)
    ensures Known(FineNext(f, step).session)
  {
    match step
    case Fire(i) => assert CancelFits(f.session, f.cancels[i]);
    case Run(c) => hide Known; RunKeepsKnown(f, c);
    case _ =>
  }

  /** A command that fitted still does after any step, for no run goes back to `Latched` and history only grows. */
  lemma OldCancelFits(f: Fine, step: FineStep, c: Cancel)
    requires FineInv(f) && FineEnabled(f, step) && CancelFits(f.session, c)
    ensures CancelFits(FineNext(f, step).session, c)
  {
  }

  lemma StepKeepsCancels(f: Fine, step: FineStep, i: nat)
    requires FineInv(f) && FineEnabled(f, step) && i < |FineNext(f, step).cancels|
    ensures CancelFits(FineNext(f, step).session, FineNext(f, step).cancels[i])
  {
    if i < |f.cancels| {
      OldCancelFits(f, step, f.cancels[i]);
      hide CancelFits;
      NewCancelFits(f, step, i);
    }
  }

  lemma NewCancelFits(f: Fine, step: FineStep, i: nat)
    requires FineEnabled(f, step) && i < |f.cancels|
    ensures FineNext(f, step).cancels[i] in {f.cancels[i], Settled}
            || (f.cancels[i].FoundNone? && FineNext(f, step).cancels[i] == SawLatch(f.cancels[i].epoch))
    ensures FineNext(f, step).cancels[i].SawLatch? && f.cancels[i].FoundNone? && CancelFits(FineNext(f, step).session, f.cancels[i]) ==>
              CancelFits(FineNext(f, step).session, FineNext(f, step).cancels[i])
    ensures CancelFits(FineNext(f, step).session, Settled)
  {
  }

  lemma StepKeepsFineInv(f: Fine, step: FineStep)
    requires FineInv(f) && FineEnabled(f, step)
    ensures FineInv(FineNext(f, step))
  {
    StepKeepsLatches(f, step);
    StepKeepsSlot(f, step);
    StepKeepsKnown(f, step);
    hide FineNext, FineEnabled, Latches, Slot, Known, CancelFits;
    forall i | 0 <= i < |FineNext(f, step).cancels|
      ensures CancelFits(FineNext(f, step).session, FineNext(f, step).cancels[i])
    {
      StepKeepsCancels(f, step, i);
    }
  }

  lemma {:induction false} RunKeepsFineInv(states: seq<Fine>, steps: seq<FineStep>, k: nat)
    requires IsFineRun(states, steps) && k < |states|
    ensures FineInv(states[k])
  {
    hide FineInv, FineNext, FineEnabled;
    if k > 0 {
      RunKeepsFineInv(states, steps, k - 1);
      assert FineMove(states[k - 1], steps[k - 1], states[k]);
      StepKeepsFineInv(states[k - 1], steps[k - 1]);
    } else {
      StartFits();
    }
  }

  lemma StartFits()
    ensures FineInv(START)
  {
  }

  /** Mutual exclusion does not need the coarser grain: at most one run is between latch and latch reset. */
  lemma FineOneRunAtATime(states: seq<Fine>, steps: seq<FineStep>, k: nat, a: nat, b: nat)
    requires IsFineRun(states, steps) && k < |states|
    requires a < |states[k].session.runs| && Active(states[k].session.runs[a])
    requires b < |states[k].session.runs| && Active(states[k].session.runs[b])
    ensures a == b && states[k].session.querying
  {
    RunKeepsFineInv(states, steps, k);
  }

  // ---- What slips break --------------------------------------------------------

  predicate BeforeConsume(s: Session, r: nat) {
    r < |s.runs| && s.runs[r] in {Latched, TokenStored}
  }

  /** The command `c` will still fire run `r`, or raise the flag on its behalf. */
  predicate IsFor(c: Cancel, r: nat) {
    c in {Took(r), FoundNone(Some(r)), SawLatch(Some(r))}
  }

  ghost predicate OnItsWay(cancels: seq<Cancel>, r: nat) {
    exists i :: 0 <= i < |cancels| && IsFor(cancels[i], r)
  }

  ghost predicate IsTaken(cancels: seq<Cancel>, r: nat) {
    exists i :: 0 <= i < |cancels| && cancels[i] == Took(r)
  }

  /** A stop of `r` had its effect, will have it, or came too late to matter. */
  ghost predicate Heard(f: Fine, r: nat) {
    || r in f.session.fired
    || OnItsWay(f.cancels, r)
    || (BeforeConsume(f.session, r) && f.session.pending)
    || (r < |f.session.runs| && f.session.runs[r] in {Leaving, LatchDropped, TokenDropped, Done})
  }

  /** A stop issued now would reach the run that holds the latch. */
  ghost predicate Stoppable(f: Fine) {
    forall r :: Holder(f.session) == Some(r) && f.session.runs[r] in {TokenStored, Streaming} ==>
      f.session.token == Some(r) || r in f.session.fired || IsTaken(f.cancels, r)
  }

  ghost predicate AllHeard(f: Fine) {
    forall r :: r in f.session.stopped ==> Heard(f, r)
  }

  /** No run is cancelled that nobody stopped, deleted or charged. */
  predicate AllAsked(f: Fine) {
    f.session.fired <= f.session.stopped + f.session.deleted + f.session.overBudget
  }

  ghost predicate Safe(f: Fine) {
    Stoppable(f) && AllHeard(f) && AllAsked(f)
  }

  /**
   The five slips:
   - a stop takes the token an older run left behind, while the run that holds
     the latch has stored none: nothing is left to tell that run;
   - a stop raises the flag after its run consumed it;
   - a run consumes a flag raised by stops of other epochs;
   - an exit drops the token a newer run has stored meanwhile;
   - an exit clears the flag a newer run has not consumed yet.
   */
  ghost predicate Slip(f: Fine, step: FineStep) {
    var s := f.session;
    match step
    case StopTake =>
      exists r :: Holder(s) == Some(r) && s.token.Some? && s.token.value != r
                  && r !in s.fired && !s.pending && !OnItsWay(f.cancels, r)
    case Mark(i) =>
      && i < |f.cancels|
      && exists r :: f.cancels[i] == SawLatch(Some(r)) && At(s, r, Streaming) && r !in s.fired
                     && !OnItsWay(f.cancels[i := Settled], r)
    case Run(c) =>
      c.ConsumePending? && s.pending && c.run !in s.stopped + s.deleted + s.overBudget
    case ExitToken(older) =>
      exists r :: Holder(s) == Some(r) && r != older && s.token == Some(r) && s.runs[r] in {TokenStored, Streaming}
                  && r !in s.fired && !IsTaken(f.cancels, r)
    case ExitPending(_) =>
      exists r :: Holder(s) == Some(r) && s.pending && BeforeConsume(s, r) && r in s.stopped
                  && r !in s.fired && !OnItsWay(f.cancels, r)
    case _ => false
  }

  // ---- The list of slips is exact ------------------------------------------------

  lemma {:induction false} SettleOne(cancels: seq<Cancel>, i: nat, c: Cancel, r: nat)
    requires i < |cancels|
    ensures OnItsWay(cancels[i := c], r) ==> OnItsWay(cancels, r) || IsFor(c, r)
    ensures IsFor(c, r) ==> OnItsWay(cancels[i := c], r)
    ensures OnItsWay(cancels, r) && !IsFor(cancels[i], r) ==> OnItsWay(cancels[i := c], r)
    ensures IsTaken(cancels, r) && cancels[i] != Took(r) ==> IsTaken(cancels[i := c], r)
  {
    var after := cancels[i := c];
    assert after[i] == c;
    assert forall j :: 0 <= j < |cancels| && j != i ==> after[j] == cancels[j];
  }

  lemma {:induction false} AddOne(cancels: seq<Cancel>, c: Cancel, r: nat)
    ensures OnItsWay(cancels + [c], r) <==> OnItsWay(cancels, r) || IsFor(c, r)
    ensures IsTaken(cancels + [c], r) <==> IsTaken(cancels, r) || c == Took(r)
  {
    var after := cancels + [c];
    assert after[|cancels|] == c;
    assert forall j :: 0 <= j < |cancels| ==> after[j] == cancels[j];
  }

  lemma StopTakeSafeIff(f: Fine)
    requires FineInv(f) && Safe(f)
    ensures Safe(FineNext(f, StopTake)) <==> !Slip(f, StopTake)
  {
    var s, after := f.session, FineNext(f, StopTake);
    var c := if s.token.Some? then Took(s.token.value) else FoundNone(Holder(s));
    forall r
      ensures OnItsWay(after.cancels, r) <==> OnItsWay(f.cancels, r) || IsFor(c, r)
      ensures IsTaken(after.cancels, r) <==> IsTaken(f.cancels, r) || c == Took(r)
    {
      AddOne(f.cancels, c, r);
    }
    if Slip(f, StopTake) {
      var r :| Holder(s) == Some(r) && s.token.Some? && s.token.value != r && r !in s.fired && !s.pending && !OnItsWay(f.cancels, r);
      assert s.runs[r] == Latched;
      assert !Heard(after, r);
    } else {
      forall r | r in after.session.stopped
        ensures Heard(after, r)
      {
        if r in s.stopped { assert Heard(f, r); }
      }
    }
  }

  lemma DeleteTakeSafe(f: Fine)
    requires FineInv(f) && Safe(f)
    ensures Safe(FineNext(f, DeleteTake))
  {
    var s, after := f.session, FineNext(f, DeleteTake);
    if s.token.Some? {
      forall r
        ensures OnItsWay(f.cancels, r) ==> OnItsWay(after.cancels, r)
        ensures IsTaken(after.cancels, r) <==> IsTaken(f.cancels, r) || Took(s.token.value) == Took(r)
      {
        AddOne(f.cancels, Took(s.token.value), r);
      }
      forall r | r in after.session.stopped
        ensures Heard(after, r)
      {
        assert Heard(f, r);
      }
    }
  }

  lemma FireSafe(f: Fine, i: nat)
    requires FineInv(f) && Safe(f) && FineEnabled(f, Fire(i))
    ensures Safe(FineNext(f, Fire(i)))
  {
    var after := FineNext(f, Fire(i));
    assert CancelFits(f.session, f.cancels[i]);
    forall r
      ensures OnItsWay(f.cancels, r) && !IsFor(f.cancels[i], r) ==> OnItsWay(after.cancels, r)
      ensures IsTaken(f.cancels, r) && f.cancels[i] != Took(r) ==> IsTaken(after.cancels, r)
    {
      SettleOne(f.cancels, i, Settled, r);
    }
    forall r | r in after.session.stopped
      ensures Heard(after, r)
    {
      assert Heard(f, r);
    }
  }

  lemma ReadLatchSafe(f: Fine, i: nat)
    requires FineInv(f) && Safe(f) && FineEnabled(f, ReadLatch(i))
    ensures Safe(FineNext(f, ReadLatch(i)))
  {
    var after := FineNext(f, ReadLatch(i));
    assert CancelFits(f.session, f.cancels[i]);
    forall r
      ensures OnItsWay(f.cancels, r) && !IsFor(f.cancels[i], r) ==> OnItsWay(after.cancels, r)
      ensures IsFor(after.cancels[i], r) ==> OnItsWay(after.cancels, r)
      ensures IsTaken(f.cancels, r) ==> IsTaken(after.cancels, r)
    {
      SettleOne(f.cancels, i, after.cancels[i], r);
    }
    forall r | r in after.session.stopped
      ensures Heard(after, r)
    {
      assert Heard(f, r);
      if IsFor(f.cancels[i], r) {
        assert f.cancels[i] == FoundNone(Some(r));
        if f.session.querying {
          assert after.cancels[i] == SawLatch(Some(r));
        } else {
          assert !Active(f.session.runs[r]);
          assert f.session.runs[r] in {LatchDropped, TokenDropped, Done};
        }
      }
    }
  }

  lemma MarkSafeIff(f: Fine, i: nat)
    requires FineInv(f) && Safe(f) && FineEnabled(f, Mark(i))
    ensures Safe(FineNext(f, Mark(i))) <==> !Slip(f, Mark(i))
  {
    var s, after := f.session, FineNext(f, Mark(i));
    assert CancelFits(s, f.cancels[i]);
    forall r
      ensures OnItsWay(f.cancels, r) && !IsFor(f.cancels[i], r) ==> OnItsWay(after.cancels, r)
      ensures IsTaken(f.cancels, r) ==> IsTaken(after.cancels, r)
    {
      SettleOne(f.cancels, i, Settled, r);
    }
    if Slip(f, Mark(i)) {
      var r :| f.cancels[i] == SawLatch(Some(r)) && At(s, r, Streaming) && r !in s.fired
               && !OnItsWay(f.cancels[i := Settled], r);
      assert !Heard(after, r);
    } else {
      forall r | r in after.session.stopped
        ensures Heard(after, r)
      {
        assert Heard(f, r);
      }
    }
  }

  lemma RunSafeIff(f: Fine, c: Step)
    requires FineInv(f) && Safe(f) && FineEnabled(f, Run(c))
    ensures Safe(FineNext(f, Run(c))) <==> !Slip(f, Run(c))
  {
    var s, after := f.session, FineNext(f, Run(c));
    assert after.cancels == f.cancels;
    if Slip(f, Run(c)) {
      assert c.run in after.session.fired;
      assert !AllAsked(after);
    } else {
      forall r | r in after.session.stopped
        ensures Heard(after, r)
      {
        assert Heard(f, r);
      }
    }
  }

  lemma ExitLatchSafe(f: Fine, r: nat)
    requires FineInv(f) && Safe(f) && FineEnabled(f, ExitLatch(r))
    ensures Safe(FineNext(f, ExitLatch(r)))
  {
    var after := FineNext(f, ExitLatch(r));
    forall d | d in after.session.stopped
      ensures Heard(after, d)
    {
      assert Heard(f, d);
    }
  }

  lemma ExitTokenSafeIff(f: Fine, older: nat)
    requires FineInv(f) && Safe(f) && FineEnabled(f, ExitToken(older))
    ensures Safe(FineNext(f, ExitToken(older))) <==> !Slip(f, ExitToken(older))
  {
    var s, after := f.session, FineNext(f, ExitToken(older));
    if Slip(f, ExitToken(older)) {
      assert !Stoppable(after);
    } else {
      forall d | d in after.session.stopped
        ensures Heard(after, d)
      {
        assert Heard(f, d);
      }
    }
  }

  lemma ExitPendingSafeIff(f: Fine, older: nat)
    requires FineInv(f) && Safe(f) && FineEnabled(f, ExitPending(older))
    ensures Safe(FineNext(f, ExitPending(older))) <==> !Slip(f, ExitPending(older))
  {
    var s, after := f.session, FineNext(f, ExitPending(older));
    if Slip(f, ExitPending(older)) {
      var r :| Holder(s) == Some(r) && s.pending && BeforeConsume(s, r) && r in s.stopped
               && r !in s.fired && !OnItsWay(f.cancels, r);
      assert !Heard(after, r);
    } else {
      forall d | d in after.session.stopped
        ensures Heard(after, d)
      {
        assert Heard(f, d);
      }
    }
  }

  /** From a state where every stop is heard, nobody is cancelled unasked and stops reach, exactly the slips lead out. */
  lemma SafeStepIff(f: Fine, step: FineStep)
    requires FineInv(f) && Safe(f) && FineEnabled(f, step)
    ensures Safe(FineNext(f, step)) <==> !Slip(f, step)
  {
    match step
    case Run(c) => RunSafeIff(f, c);
    case StopTake => StopTakeSafeIff(f);
    case DeleteTake => DeleteTakeSafe(f);
    case Fire(i) => FireSafe(f, i);
    case ReadLatch(i) => ReadLatchSafe(f, i);
    case Mark(i) => MarkSafeIff(f, i);
    case ExitLatch(r) => ExitLatchSafe(f, r);
    case ExitToken(r) => ExitTokenSafeIff(f, r);
    case ExitPending(r) => ExitPendingSafeIff(f, r);
  }

  // ---- Whole runs ------------------------------------------------------------------

  ghost predicate NoSlips(states: seq<Fine>, steps: seq<FineStep>, k: nat)
    requires IsFineRun(states, steps) && k <= |steps|
  {
    forall j :: 0 <= j < k ==> !Slip(states[j], steps[j])
  }

  /** A run stays safe up to step `k` exactly when none of its steps before is a slip. */
  lemma {:induction false} SafeRunIff(states: seq<Fine>, steps: seq<FineStep>, k: nat)
    requires IsFineRun(states, steps) && k < |states|
    ensures (forall j :: 0 <= j <= k ==> Safe(states[j])) <==> NoSlips(states, steps, k)
  {
    hide Safe, FineInv, FineNext, FineEnabled, Slip;
    if k == 0 {
      StartIsSafe();
    } else {
      SafeRunIff(states, steps, k - 1);
      RunKeepsFineInv(states, steps, k - 1);
      assert FineMove(states[k - 1], steps[k - 1], states[k]);
      if Safe(states[k - 1]) { SafeStepIff(states[k - 1], steps[k - 1]); }
      assert NoSlips(states, steps, k) <==> NoSlips(states, steps, k - 1) && !Slip(states[k - 1], steps[k - 1]);
    }
  }

  lemma StartIsSafe()
    ensures Safe(START)
  {
  }

  /** A stop issued at step `j` was a stop of run `r`: `r` held the latch or the stop took `r`'s token. */
  predicate FineStopsAt(f: Fine, step: FineStep, r: nat) {
    step.StopTake? && (Holder(f.session) == Some(r) || f.session.token == Some(r))
  }

  predicate FineDeletesAt(f: Fine, step: FineStep, r: nat) {
    step.DeleteTake? && f.session.token == Some(r)
  }

  lemma HistoryGrows(f: Fine, step: FineStep, r: nat)
    requires FineEnabled(f, step)
    ensures r in FineNext(f, step).session.stopped <==> r in f.session.stopped || FineStopsAt(f, step, r)
    ensures r in FineNext(f, step).session.deleted <==> r in f.session.deleted || FineDeletesAt(f, step, r)
  {
  }

  lemma {:induction false} FineHistory(states: seq<Fine>, steps: seq<FineStep>, k: nat, r: nat)
    requires IsFineRun(states, steps) && k < |states|
    ensures r in states[k].session.stopped <==> exists j :: 0 <= j < k && FineStopsAt(states[j], steps[j], r)
    ensures r in states[k].session.deleted <==> exists j :: 0 <= j < k && FineDeletesAt(states[j], steps[j], r)
  {
    hide FineNext, FineEnabled, FineStopsAt, FineDeletesAt;
    if k > 0 {
      FineHistory(states, steps, k - 1, r);
      assert FineMove(states[k - 1], steps[k - 1], states[k]);
      HistoryGrows(states[k - 1], steps[k - 1], r);
    }
  }

  /**
   No lost stop at the source's grain: without slips, a stop of run `r` has
   fired its token once the run streams and no command for it is on its way;
   before the run consumes the flag it has fired, is on its way, or is pending.
   */
  lemma FineNoLostStop(states: seq<Fine>, steps: seq<FineStep>, j: nat, k: nat, r: nat)
    requires IsFineRun(states, steps) && j < k < |states| && NoSlips(states, steps, k)
    requires FineStopsAt(states[j], steps[j], r)
    ensures At(states[k].session, r, Streaming) && !OnItsWay(states[k].cancels, r) ==> r in states[k].session.fired
    ensures BeforeConsume(states[k].session, r) ==>
              r in states[k].session.fired || OnItsWay(states[k].cancels, r) || states[k].session.pending
  {
    FineHistory(states, steps, k, r);
    SafeRunIff(states, steps, k);
    assert Heard(states[k], r);
  }

  /** No inherited stop: without slips a run is cancelled only by its own stop, a deletion of its token, or its budget. */
  lemma FineNoInheritedStop(states: seq<Fine>, steps: seq<FineStep>, k: nat, r: nat)
    requires IsFineRun(states, steps) && k < |states| && NoSlips(states, steps, k)
    requires r in states[k].session.fired
    ensures r in states[k].session.overBudget
            || exists j :: 0 <= j < k && (FineStopsAt(states[j], steps[j], r) || FineDeletesAt(states[j], steps[j], r))
  {
    SafeRunIff(states, steps, k);
    FineHistory(states, steps, k, r);
  }

  // ---- Deletions -----------------------------------------------------------------------

  /** Run `r`'s token is fired, or a command that took it is about to fire it. */
  ghost predicate Reached(f: Fine, r: nat) {
    r in f.session.fired || IsTaken(f.cancels, r)
  }

  /** At step `j` an exit dropped the token of run `r`. */
  predicate DropsTokenOf(f: Fine, step: FineStep, r: nat) {
    step.ExitToken? && f.session.token == Some(r)
  }

  ghost predicate TokenDroppedBefore(states: seq<Fine>, steps: seq<FineStep>, k: nat, r: nat)
    requires IsFineRun(states, steps) && k < |states|
  {
    exists j :: 0 <= j < k && DropsTokenOf(states[j], steps[j], r)
  }

  /** Run `r` has stored its token and not been cancelled. */
  predicate Cancellable(s: Session, r: nat) {
    r < |s.runs| && s.runs[r] in {TokenStored, Streaming} && r !in s.fired
  }

  /** A token in the slot has not been taken. */
  ghost predicate TakenOnce(f: Fine) {
    forall r :: f.session.token == Some(r) ==> !IsTaken(f.cancels, r)
  }

  lemma TakenAfter(f: Fine, step: FineStep, r: nat)
    requires FineEnabled(f, step)
    ensures IsTaken(FineNext(f, step).cancels, r) ==>
              IsTaken(f.cancels, r) || ((step.StopTake? || step.DeleteTake?) && f.session.token == Some(r))
    ensures IsTaken(f.cancels, r) && !(step.Fire? && f.cancels[step.i] == Took(r)) ==> IsTaken(FineNext(f, step).cancels, r)
    ensures (step.StopTake? || step.DeleteTake?) && f.session.token == Some(r) ==> IsTaken(FineNext(f, step).cancels, r)
  {
    var after := FineNext(f, step).cancels;
    match step
    case StopTake => AddOne(f.cancels, if f.session.token.Some? then Took(f.session.token.value) else FoundNone(Holder(f.session)), r);
    case DeleteTake => if f.session.token.Some? { AddOne(f.cancels, Took(f.session.token.value), r); }
    case Fire(i) => SettleOne(f.cancels, i, Settled, r);
    case ReadLatch(i) => SettleOne(f.cancels, i, after[i], r);
    case Mark(i) => SettleOne(f.cancels, i, Settled, r);
    case _ =>
  }

  lemma StepKeepsTakenOnce(f: Fine, step: FineStep)
    requires FineInv(f) && TakenOnce(f) && FineEnabled(f, step)
    ensures TakenOnce(FineNext(f, step))
  {
    forall r | FineNext(f, step).session.token == Some(r)
      ensures !IsTaken(FineNext(f, step).cancels, r)
    {
      TakenAfter(f, step, r);
      if f.session.token != Some(r) {
        assert step == Run(StoreToken(r)) && f.session.runs[r] == Latched;
        assert forall i :: 0 <= i < |f.cancels| ==> CancelFits(f.session, f.cancels[i]);
      }
    }
  }

  /** A cancellable run keeps its token, in the slot or taken, until an exit drops it from the slot. */
  lemma TokenStep(f: Fine, step: FineStep, r: nat)
    requires FineInv(f) && TakenOnce(f) && FineEnabled(f, step) && Cancellable(FineNext(f, step).session, r)
    ensures
      var f' := FineNext(f, step);
      if At(f.session, r, Latched) then f'.session.token == Some(r) && !DropsTokenOf(f, step, r)
      else
        && Cancellable(f.session, r)
        && (f'.session.token == Some(r) || IsTaken(f'.cancels, r) <==>
              (f.session.token == Some(r) || IsTaken(f.cancels, r)) && !DropsTokenOf(f, step, r))
  {
    TakenAfter(f, step, r);
    hide IsTaken;
  }

  lemma {:induction false} CancellableUnlessDropped(states: seq<Fine>, steps: seq<FineStep>, k: nat, r: nat)
    requires IsFineRun(states, steps) && k < |states|
    ensures TakenOnce(states[k])
    ensures TokenDroppedBefore(states, steps, k, r) ==> r < |states[k].session.runs| && states[k].session.runs[r] != Latched
    ensures Cancellable(states[k].session, r) ==>
              (states[k].session.token == Some(r) || IsTaken(states[k].cancels, r) <==> !TokenDroppedBefore(states, steps, k, r))
  {
    if k > 0 {
      var f, step := states[k - 1], steps[k - 1];
      CancellableUnlessDropped(states, steps, k - 1, r);
      RunKeepsFineInv(states, steps, k - 1);
      assert FineMove(f, step, states[k]);
      StepKeepsTakenOnce(f, step);
      if DropsTokenOf(f, step, r) || TokenDroppedBefore(states, steps, k - 1, r) { PastLatch(f, step, r); }
      if Cancellable(states[k].session, r) { TokenStep(f, step, r); }
      assert TokenDroppedBefore(states, steps, k, r) <==> TokenDroppedBefore(states, steps, k - 1, r) || DropsTokenOf(f, step, r);
      hide FineNext, FineEnabled, FineInv, TakenOnce, IsTaken, Cancellable, DropsTokenOf, TokenDroppedBefore;
    }
  }

  lemma PastLatch(f: Fine, step: FineStep, r: nat)
    requires FineInv(f) && FineEnabled(f, step)
    requires DropsTokenOf(f, step, r) || (r < |f.session.runs| && f.session.runs[r] != Latched)
    ensures r < |FineNext(f, step).session.runs| && FineNext(f, step).session.runs[r] != Latched
  {
  }

  /**
   At the source's grain, in every run of the session: a deletion reaches a run
   that has not left its stream exactly when that run has stored its token and,
   unless it is cancelled already, no exit of an older run has dropped it.
   */
  lemma FineDeleteReachesRunIff(states: seq<Fine>, steps: seq<FineStep>, k: nat, r: nat)
    requires IsFineRun(states, steps) && k < |steps| && steps[k].DeleteTake?
    requires r < |states[k].session.runs| && states[k].session.runs[r] in {Latched, TokenStored, Streaming}
    ensures Reached(states[k + 1], r) <==>
              && states[k].session.runs[r] != Latched
              && (r in states[k].session.fired || !TokenDroppedBefore(states, steps, k, r))
    ensures !Reached(states[k + 1], r) && states[k].session.token.None? ==> states[k + 1] == states[k]
  {
    var f := states[k];
    RunKeepsFineInv(states, steps, k);
    CancellableUnlessDropped(states, steps, k, r);
    assert FineMove(f, steps[k], states[k + 1]);
    TakenAfter(f, steps[k], r);
    assert forall i :: 0 <= i < |f.cancels| ==> CancelFits(f.session, f.cancels[i]);
  }

  /** Without slips: a deletion reaches the run that holds the latch and streams, or is about to, iff it has stored its token. */
  lemma FineDeleteReachesHolderIff(states: seq<Fine>, steps: seq<FineStep>, k: nat, r: nat)
    requires IsFineRun(states, steps) && k < |steps| && steps[k].DeleteTake? && NoSlips(states, steps, k)
    requires Holder(states[k].session) == Some(r) && states[k].session.runs[r] != Leaving
    ensures Reached(states[k + 1], r) <==> states[k].session.runs[r] != Latched
  {
    var f := states[k];
    SafeRunIff(states, steps, k);
    RunKeepsFineInv(states, steps, k);
    assert Safe(f) && FineMove(f, steps[k], states[k + 1]);
    TakenAfter(f, steps[k], r);
    assert forall i :: 0 <= i < |f.cancels| ==> CancelFits(f.session, f.cancels[i]);
  }

  /** What is reached is cancelled, once the command that took the token has fired it. */
  lemma {:induction false} ReachedIsFired(states: seq<Fine>, steps: seq<FineStep>, j: nat, k: nat, r: nat)
    requires IsFineRun(states, steps) && j <= k < |states| && Reached(states[j], r)
    ensures Reached(states[k], r)
    ensures !IsTaken(states[k].cancels, r) ==> r in states[k].session.fired
    decreases k
  {
    if j < k {
      ReachedIsFired(states, steps, j, k - 1, r);
      assert FineMove(states[k - 1], steps[k - 1], states[k]);
      TakenAfter(states[k - 1], steps[k - 1], r);
      FiredStays(states[k - 1], steps[k - 1], r);
      hide FineNext, FineEnabled, IsTaken;
    }
  }

  lemma FiredStays(f: Fine, step: FineStep, r: nat)
    requires FineEnabled(f, step)
    ensures r in f.session.fired || (step.Fire? && f.cancels[step.i] == Took(r)) ==> r in FineNext(f, step).session.fired
  {
  }

  // ---- What a slip leads to -----------------------------------------------------------

  /** The rest of the send, up to its stream loop. */
  function Proceed(s: Session, r: nat): Session
    requires BeforeConsume(s, r)
  {
    Next(if s.runs[r].Latched? then Next(s, StoreToken(r)) else s, ConsumePending(r))
  }

  /** A stop that is not heard is lost: left alone the run streams, and takes events, with its token unfired. */
  lemma UnheardRunsOn(f: Fine, r: nat)
    requires FineInv(f) && r in f.session.stopped && !Heard(f, r)
    ensures
      var s := if BeforeConsume(f.session, r) then Proceed(f.session, r) else f.session;
      At(s, r, Streaming) && r !in s.fired && Enabled(s, Event(r, false, false)) && !Enabled(s, StreamCancelled(r))
  {
    var s := f.session;
    assert r < |s.runs|;
    if BeforeConsume(s, r) {
      assert !s.pending;
      var stored := if s.runs[r].Latched? then Next(s, StoreToken(r)) else s;
      assert At(stored, r, TokenStored) && !stored.pending;
    } else {
      assert s.runs[r] == Streaming;
    }
  }

  /** A streaming run whose token was dropped cannot be stopped: a whole stop command goes unheard. */
  lemma UnstoppableLosesStop(f: Fine, r: nat)
    requires FineInv(f) && Holder(f.session) == Some(r) && At(f.session, r, Streaming)
    requires f.session.token != Some(r) && r !in f.session.fired && !OnItsWay(f.cancels, r)
    ensures
      var i := |f.cancels|;
      var taken := FineNext(f, StopTake);
      && FineEnabled(taken, ReadLatch(i))
      && var read := FineNext(taken, ReadLatch(i));
         && FineEnabled(read, Mark(i))
         && r in FineNext(read, Mark(i)).session.stopped && !Heard(FineNext(read, Mark(i)), r)
  {
    var i := |f.cancels|;
    var taken := FineNext(f, StopTake);
    assert taken.cancels == f.cancels + [FoundNone(Some(r))];
    var read := FineNext(taken, ReadLatch(i));
    assert read.cancels == f.cancels + [SawLatch(Some(r))];
    assert FineNext(read, Mark(i)).cancels == f.cancels + [Settled];
    AddOne(f.cancels, Settled, r);
  }

  // ---- Witnesses: a run into each slip ---------------------------------------------------

  function Plain(querying: bool, token: Option<nat>, pending: bool, runs: seq<Pc>, fired: set<nat>, stopped: set<nat>): Session {
    Session(querying, token, pending, runs, fired, stopped, {}, {})
  }

  function LateMarkStep(k: nat): FineStep {
    match k
    case 0 => Run(Send)
    case 1 => StopTake
    case 2 => Run(StoreToken(0))
    case 3 => Run(ConsumePending(0))
    case 4 => ReadLatch(0)
    case _ => Mark(0)
  }

  function LateMarkState(k: nat): Fine {
    match k
    case 0 => START
    case 1 => Fine(Plain(true, None, false, [Latched], {}, {}), [])
    case 2 => Fine(Plain(true, None, false, [Latched], {}, {0}), [FoundNone(Some(0))])
    case 3 => Fine(Plain(true, Some(0), false, [TokenStored], {}, {0}), [FoundNone(Some(0))])
    case 4 => Fine(Plain(true, Some(0), false, [Streaming], {}, {0}), [FoundNone(Some(0))])
    case 5 => Fine(Plain(true, Some(0), false, [Streaming], {}, {0}), [SawLatch(Some(0))])
    case _ => Fine(Plain(true, Some(0), true, [Streaming], {}, {0}), [Settled])
  }

  lemma LateMarkMove(k: nat)
    requires k < 6
    ensures FineMove(LateMarkState(k), LateMarkStep(k), LateMarkState(k + 1))
  {
  }

  /** The stop finds no token, the send stores its token and consumes no flag, then the stop raises it: lost. */
  lemma LateMarkTrace() returns (states: seq<Fine>, steps: seq<FineStep>)
    ensures IsFineRun(states, steps) && |steps| == 6 && steps[5] == Mark(0)
    ensures Slip(states[5], steps[5])
    ensures states[6].session.stopped == {0} && !Heard(states[6], 0)
  {
    states := seq(7, (k: nat) => LateMarkState(k));
    steps := seq(6, (k: nat) => LateMarkStep(k));
    forall k | 0 <= k < |steps|
      ensures FineMove(states[k], steps[k], states[k + 1])
    {
      LateMarkMove(k);
    }
  }

  function WipedTokenStep(k: nat): FineStep {
    match k
    case 0 => Run(Send)
    case 1 => Run(StoreToken(0))
    case 2 => Run(ConsumePending(0))
    case 3 => Run(StreamEnds(0))
    case 4 => ExitLatch(0)
    case 5 => Run(Send)
    case 6 => Run(StoreToken(1))
    case 7 => Run(ConsumePending(1))
    case _ => ExitToken(0)
  }

  function WipedTokenState(k: nat): Fine {
    match k
    case 0 => START
    case 1 => Fine(Plain(true, None, false, [Latched], {}, {}), [])
    case 2 => Fine(Plain(true, Some(0), false, [TokenStored], {}, {}), [])
    case 3 => Fine(Plain(true, Some(0), false, [Streaming], {}, {}), [])
    case 4 => Fine(Plain(true, Some(0), false, [Leaving], {}, {}), [])
    case 5 => Fine(Plain(false, Some(0), false, [LatchDropped], {}, {}), [])
    case 6 => Fine(Plain(true, Some(0), false, [LatchDropped, Latched], {}, {}), [])
    case 7 => Fine(Plain(true, Some(1), false, [LatchDropped, TokenStored], {}, {}), [])
    case 8 => Fine(Plain(true, Some(1), false, [LatchDropped, Streaming], {}, {}), [])
    case _ => Fine(Plain(true, None, false, [TokenDropped, Streaming], {}, {}), [])
  }

  lemma WipedTokenMove(k: nat)
    requires k < 9
    ensures FineMove(WipedTokenState(k), WipedTokenStep(k), WipedTokenState(k + 1))
  {
  }

  /** An exit drops the latch, a new send stores its token, the exit drops that token. */
  lemma WipedTokenTrace() returns (states: seq<Fine>, steps: seq<FineStep>)
    ensures IsFineRun(states, steps) && |steps| == 9 && steps[8] == ExitToken(0)
    ensures Slip(states[8], steps[8])
    ensures Holder(states[9].session) == Some(1) && At(states[9].session, 1, Streaming) && states[9].session.token == None && !Stoppable(states[9])
    ensures states[8].session.token == Some(1) && states[9].session.fired == {} && states[9].cancels == []
  {
    states := seq(10, (k: nat) => WipedTokenState(k));
    steps := seq(9, (k: nat) => WipedTokenStep(k));
    forall k | 0 <= k < |steps|
      ensures FineMove(states[k], steps[k], states[k + 1])
    {
      WipedTokenMove(k);
    }
  }

  /** The same run, and then a deletion: it finds no token and changes nothing, while run 1 streams on. */
  lemma WipedTokenMissesDelete() returns (states: seq<Fine>, steps: seq<FineStep>)
    ensures IsFineRun(states, steps) && |steps| == 10 && steps[9] == DeleteTake
    ensures states[10] == states[9] && Holder(states[9].session) == Some(1)
    ensures At(states[9].session, 1, Streaming) && !Reached(states[10], 1) && Enabled(states[10].session, Event(1, false, false))
    ensures TokenDroppedBefore(states, steps, 9, 1)
  {
    var before, taken := WipedTokenTrace();
    states, steps := before + [before[9]], taken + [DeleteTake];
    forall k | 0 <= k < |steps|
      ensures FineMove(states[k], steps[k], states[k + 1])
    {
      if k < 9 {
        assert FineMove(before[k], taken[k], before[k + 1]);
        assert states[k] == before[k] && states[k + 1] == before[k + 1] && steps[k] == taken[k];
      }
    }
    assert DropsTokenOf(states[8], steps[8], 1);
  }

  function ClearedFlagStep(k: nat): FineStep {
    match k
    case 0 => Run(Send)
    case 1 => Run(StoreToken(0))
    case 2 => Run(ConsumePending(0))
    case 3 => Run(StreamEnds(0))
    case 4 => ExitLatch(0)
    case 5 => Run(Send)
    case 6 => ExitToken(0)
    case 7 => StopTake
    case 8 => ReadLatch(0)
    case 9 => Mark(0)
    case _ => ExitPending(0)
  }

  function ClearedFlagState(k: nat): Fine {
    match k
    case 0 => START
    case 1 => Fine(Plain(true, None, false, [Latched], {}, {}), [])
    case 2 => Fine(Plain(true, Some(0), false, [TokenStored], {}, {}), [])
    case 3 => Fine(Plain(true, Some(0), false, [Streaming], {}, {}), [])
    case 4 => Fine(Plain(true, Some(0), false, [Leaving], {}, {}), [])
    case 5 => Fine(Plain(false, Some(0), false, [LatchDropped], {}, {}), [])
    case 6 => Fine(Plain(true, Some(0), false, [LatchDropped, Latched], {}, {}), [])
    case 7 => Fine(Plain(true, None, false, [TokenDropped, Latched], {}, {}), [])
    case 8 => Fine(Plain(true, None, false, [TokenDropped, Latched], {}, {1}), [FoundNone(Some(1))])
    case 9 => Fine(Plain(true, None, false, [TokenDropped, Latched], {}, {1}), [SawLatch(Some(1))])
    case 10 => Fine(Plain(true, None, true, [TokenDropped, Latched], {}, {1}), [Settled])
    case _ => Fine(Plain(true, None, false, [Done, Latched], {}, {1}), [Settled])
  }

  lemma ClearedFlagMove(k: nat)
    requires k < 11
    ensures FineMove(ClearedFlagState(k), ClearedFlagStep(k), ClearedFlagState(k + 1))
  {
  }

  /** A stop of the new run raises the flag in time, and the old run's exit clears it. */
  lemma ClearedFlagTrace() returns (states: seq<Fine>, steps: seq<FineStep>)
    ensures IsFineRun(states, steps) && |steps| == 11 && steps[10] == ExitPending(0)
    ensures Slip(states[10], steps[10])
    ensures states[11].session.stopped == {1} && !Heard(states[11], 1)
  {
    states := seq(12, (k: nat) => ClearedFlagState(k));
    steps := seq(11, (k: nat) => ClearedFlagStep(k));
    forall k | 0 <= k < |steps|
      ensures FineMove(states[k], steps[k], states[k + 1])
    {
      ClearedFlagMove(k);
    }
  }

  function OldTokenStep(k: nat): FineStep {
    match k
    case 0 => Run(Send)
    case 1 => Run(StoreToken(0))
    case 2 => Run(ConsumePending(0))
    case 3 => Run(StreamEnds(0))
    case 4 => ExitLatch(0)
    case 5 => Run(Send)
    case _ => StopTake
  }

  function OldTokenState(k: nat): Fine {
    match k
    case 0 => START
    case 1 => Fine(Plain(true, None, false, [Latched], {}, {}), [])
    case 2 => Fine(Plain(true, Some(0), false, [TokenStored], {}, {}), [])
    case 3 => Fine(Plain(true, Some(0), false, [Streaming], {}, {}), [])
    case 4 => Fine(Plain(true, Some(0), false, [Leaving], {}, {}), [])
    case 5 => Fine(Plain(false, Some(0), false, [LatchDropped], {}, {}), [])
    case 6 => Fine(Plain(true, Some(0), false, [LatchDropped, Latched], {}, {}), [])
    case _ => Fine(Plain(true, None, false, [LatchDropped, Latched], {}, {0, 1}), [Took(0)])
  }

  lemma OldTokenMove(k: nat)
    requires k < 7
    ensures FineMove(OldTokenState(k), OldTokenStep(k), OldTokenState(k + 1))
  {
  }

  /** A stop of the new run takes the token the old run has not dropped yet. */
  lemma OldTokenTrace() returns (states: seq<Fine>, steps: seq<FineStep>)
    ensures IsFineRun(states, steps) && |steps| == 7 && steps[6] == StopTake
    ensures Slip(states[6], steps[6])
    ensures 1 in states[7].session.stopped && !Heard(states[7], 1)
  {
    states := seq(8, (k: nat) => OldTokenState(k));
    steps := seq(7, (k: nat) => OldTokenStep(k));
    forall k | 0 <= k < |steps|
      ensures FineMove(states[k], steps[k], states[k + 1])
    {
      OldTokenMove(k);
    }
  }

  function IdleStopStep(k: nat): FineStep {
    match k
    case 0 => StopTake
    case 1 => Run(Send)
    case 2 => ReadLatch(0)
    case 3 => Mark(0)
    case 4 => Run(StoreToken(0))
    case _ => Run(ConsumePending(0))
  }

  function IdleStopState(k: nat): Fine {
    match k
    case 0 => START
    case 1 => Fine(Plain(false, None, false, [], {}, {}), [FoundNone(None)])
    case 2 => Fine(Plain(true, None, false, [Latched], {}, {}), [FoundNone(None)])
    case 3 => Fine(Plain(true, None, false, [Latched], {}, {}), [SawLatch(None)])
    case 4 => Fine(Plain(true, None, true, [Latched], {}, {}), [Settled])
    case 5 => Fine(Plain(true, Some(0), true, [TokenStored], {}, {}), [Settled])
    case _ => Fine(Plain(true, Some(0), false, [Streaming], {0}, {}), [Settled])
  }

  lemma IdleStopMove(k: nat)
    requires k < 6
    ensures FineMove(IdleStopState(k), IdleStopStep(k), IdleStopState(k + 1))
  {
  }

  /** A stop of an idle session sees the latch of the send that follows, which then starts cancelled. */
  lemma IdleStopTrace() returns (states: seq<Fine>, steps: seq<FineStep>)
    ensures IsFineRun(states, steps) && |steps| == 6 && steps[5] == Run(ConsumePending(0))
    ensures Slip(states[5], steps[5])
    ensures states[6].session.fired == {0} && states[6].session.stopped == {}
  {
    states := seq(7, (k: nat) => IdleStopState(k));
    steps := seq(6, (k: nat) => IdleStopStep(k));
    forall k | 0 <= k < |steps|
      ensures FineMove(states[k], steps[k], states[k + 1])
    {
      IdleStopMove(k);
    }
  }

  function SecondStopStep(k: nat): FineStep {
    match k
    case 0 => Run(Send)
    case 1 => Run(StoreToken(0))
    case 2 => Run(ConsumePending(0))
    case 3 => StopTake
    case 4 => Fire(0)
    case 5 => StopTake
    case 6 => ReadLatch(1)
    case 7 => Mark(1)
    case 8 => Run(StreamCancelled(0))
    case 9 => ExitLatch(0)
    case 10 => Run(Send)
    case 11 => Run(StoreToken(1))
    case _ => Run(ConsumePending(1))
  }

  function SecondStopState(k: nat): Fine {
    match k
    case 0 => START
    case 1 => Fine(Plain(true, None, false, [Latched], {}, {}), [])
    case 2 => Fine(Plain(true, Some(0), false, [TokenStored], {}, {}), [])
    case 3 => Fine(Plain(true, Some(0), false, [Streaming], {}, {}), [])
    case 4 => Fine(Plain(true, None, false, [Streaming], {}, {0}), [Took(0)])
    case 5 => Fine(Plain(true, None, false, [Streaming], {0}, {0}), [Settled])
    case 6 => Fine(Plain(true, None, false, [Streaming], {0}, {0}), [Settled, FoundNone(Some(0))])
    case 7 => Fine(Plain(true, None, false, [Streaming], {0}, {0}), [Settled, SawLatch(Some(0))])
    case 8 => Fine(Plain(true, None, true, [Streaming], {0}, {0}), [Settled, Settled])
    case 9 => Fine(Plain(true, None, true, [Leaving], {0}, {0}), [Settled, Settled])
    case 10 => Fine(Plain(false, None, true, [LatchDropped], {0}, {0}), [Settled, Settled])
    case 11 => Fine(Plain(true, None, true, [LatchDropped, Latched], {0}, {0}), [Settled, Settled])
    case 12 => Fine(Plain(true, Some(1), true, [LatchDropped, TokenStored], {0}, {0}), [Settled, Settled])
    case _ => Fine(Plain(true, Some(1), false, [LatchDropped, Streaming], {0, 1}, {0}), [Settled, Settled])
  }

  lemma SecondStopMove(k: nat)
    requires k < 13
    ensures FineMove(SecondStopState(k), SecondStopStep(k), SecondStopState(k + 1))
  {
  }

  /** A second stop of the old run raises the flag in that run's own epoch; the next run consumes it before the old exit clears it. */
  lemma SecondStopTrace() returns (states: seq<Fine>, steps: seq<FineStep>)
    ensures IsFineRun(states, steps) && |steps| == 13 && steps[12] == Run(ConsumePending(1))
    ensures Slip(states[12], steps[12])
    ensures states[13].session.fired == {0, 1} && states[13].session.stopped == {0}
  {
    states := seq(14, (k: nat) => SecondStopState(k));
    steps := seq(13, (k: nat) => SecondStopStep(k));
    forall k | 0 <= k < |steps|
      ensures FineMove(states[k], steps[k], states[k + 1])
    {
      SecondStopMove(k);
    }
  }
}
