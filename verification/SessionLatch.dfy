/**
 One chat session: the `querying` latch, the slot for the running query's
 cancellation token and the pending-stop flag, under any interleaving of
 unboundedly many sends, stops, deletions, stream events, budget hits and exits.

 Grain of `Next`: a stop, a deletion's cancel and the exit block of a run are one
 step each. The source takes their locks one after the other; `SessionFine` does
 too, and says exactly what then goes wrong.
 */
module SessionLatch {
  import opened Common

  // ---- State -------------------------------------------------------------

  /** Where one accepted send is. `LatchDropped` and `TokenDropped` occur at the fine grain only. */
  datatype Pc =
    | Latched
    | TokenStored
    | Streaming
    | Leaving
    | LatchDropped
    | TokenDropped
    | Done

  /**
   Runs are numbered in the order their sends were accepted; a run's number also
   names its cancellation token. `fired` are the cancelled tokens. `stopped` (runs
   a stop was issued for while they held the latch), `deleted` (runs whose token
   `delete_session` took) and `overBudget` are history.
   */
  datatype Session = Session(
    querying: bool,
    token: Option<nat>,
    pending: bool,
    runs: seq<Pc>,
    fired: set<nat>,
    stopped: set<nat>,
    deleted: set<nat>,
    overBudget: set<nat>)

  datatype Step =
    | Send
    | StoreToken(run: nat)
    | ConsumePending(run: nat)
    | Event(run: nat, exceeded: bool, failed: bool)
    | StreamEnds(run: nat)
    | StreamCancelled(run: nat)
    | Panic(run: nat)
    | Exit(run: nat)
    | Stop
    | Delete

  const IDLE := Session(false, None, false, [], {}, {}, {}, {})

  predicate At(s: Session, run: nat, pc: Pc) {
    run < |s.runs| && s.runs[run] == pc
  }

  /** `stream_step` is biased: with a cancelled token it yields neither an event nor the stream's end. */
  predicate Enabled(s: Session, step: Step) {
    match step
    case Send => true
    case StoreToken(r) => At(s, r, Latched)
    case ConsumePending(r) => At(s, r, TokenStored)
    case Event(r, _, _) => At(s, r, Streaming) && r !in s.fired
    case StreamEnds(r) => At(s, r, Streaming) && r !in s.fired
    case StreamCancelled(r) => At(s, r, Streaming) && r in s.fired
    case Panic(r) => At(s, r, Streaming)
    case Exit(r) => At(s, r, Leaving)
    case Stop => true
    case Delete => true
  }

  function Moved(s: Session, run: nat, pc: Pc): Session
    requires run < |s.runs|
  {
    s.(runs := s.runs[run := pc])
  }

  /** History: the run holding the latch, if any, has been stopped. */
  function Marked(s: Session): set<nat> {
    if s.querying && s.runs != [] then s.stopped + {|s.runs| - 1} else s.stopped
  }

  function Next(s: Session, step: Step): Session
    requires Enabled(s, step)
  {
    match step
    case Send =>
      if s.querying then s
      else s.(querying := true, runs := s.runs + [Latched])
    case StoreToken(r) => Moved(s, r, TokenStored).(token := Some(r))
    case ConsumePending(r) =>
      if s.pending then Moved(s, r, Streaming).(pending := false, fired := s.fired + {r})
      else Moved(s, r, Streaming)
    case Event(r, exceeded, failed) =>
      var t := if failed then Moved(s, r, Leaving) else s;
      if exceeded then t.(fired := s.fired + {r}, overBudget := s.overBudget + {r}) else t
    case StreamEnds(r) => Moved(s, r, Leaving)
    case StreamCancelled(r) => Moved(s, r, Leaving)
    case Panic(r) => Moved(s, r, Leaving)
    case Exit(r) => Moved(s, r, Done).(querying := false, token := None, pending := false)
    case Stop =>
      if s.token.Some? then s.(token := None, fired := s.fired + {s.token.value}, stopped := Marked(s))
      else if s.querying then s.(pending := true, stopped := Marked(s))
      else s
    case Delete =>
      if s.token.Some?
      then s.(token := None, fired := s.fired + {s.token.value}, deleted := s.deleted + {s.token.value})
      else s
  }

  ghost predicate IsRun(states: seq<Session>, steps: seq<Step>) {
    && |states| == |steps| + 1
    && states[0] == IDLE
    && forall k :: 0 <= k < |steps| ==> Enabled(states[k], steps[k]) && states[k + 1] == Next(states[k], steps[k])
  }

  // ---- Invariant ---------------------------------------------------------

  predicate Active(pc: Pc) {
    pc in {Latched, TokenStored, Streaming, Leaving}
  }

  ghost predicate LatchInv(s: Session) {
    && (s.querying <==> s.runs != [] && Active(s.runs[|s.runs| - 1]))
    && (forall r :: 0 <= r < |s.runs| && (r < |s.runs| - 1 || !s.querying) ==> s.runs[r] == Done)
    && (s.token.Some? ==> s.querying && s.token.value == |s.runs| - 1 && s.runs[|s.runs| - 1] != Latched)
    && (s.pending ==> s.querying && |s.runs| - 1 in s.stopped)
  }

  ghost predicate FiredInv(s: Session) {
    && (s.querying && s.runs != [] && s.runs[|s.runs| - 1] != Latched && s.token.None? ==> |s.runs| - 1 in s.fired)
    && (forall r :: r in s.fired ==> r < |s.runs| && s.runs[r] != Latched)
    && s.fired <= s.stopped + s.deleted + s.overBudget
    && (forall r :: r in s.overBudget ==> r < |s.runs| && s.runs[r] !in {Latched, TokenStored})
    && (forall r :: r in s.stopped ==> r < |s.runs| && (r in s.fired || (s.pending && s.runs[r] in {Latched, TokenStored})))
  }

  ghost predicate Inv(s: Session) {
    LatchInv(s) && FiredInv(s)
  }

  lemma StepKeepsLatch(s: Session, step: Step)
    requires Inv(s) && Enabled(s, step)
    ensures LatchInv(Next(s, step))
  {
  }

  lemma MoveKeepsFired(s: Session, step: Step)
    requires Inv(s) && Enabled(s, step) && !step.Stop? && !step.Delete? && !step.Event? && !step.ConsumePending?
    ensures FiredInv(Next(s, step))
  {
  }

  lemma StopKeepsFired(s: Session)
    requires Inv(s)
    ensures FiredInv(Next(s, Stop))
  {
  }

  lemma DeleteKeepsFired(s: Session)
    requires Inv(s)
    ensures FiredInv(Next(s, Delete))
  {
  }

  lemma RunFiresItself(s: Session, step: Step)
    requires Inv(s) && Enabled(s, step) && (step.Event? || step.ConsumePending?)
    ensures FiredInv(Next(s, step))
  {
    assert step.run == |s.runs| - 1;
  }

  lemma StepKeepsInv(s: Session, step: Step)
    requires Inv(s) && Enabled(s, step)
    ensures Inv(Next(s, step))
  {
    StepKeepsLatch(s, step);
    if step.Stop? {
      StopKeepsFired(s);
    } else if step.Delete? {
      DeleteKeepsFired(s);
    } else if step.Event? || step.ConsumePending? {
      RunFiresItself(s, step);
    } else {
      MoveKeepsFired(s, step);
    }
  }

  lemma {:induction false} RunKeepsInv(states: seq<Session>, steps: seq<Step>, k: nat)
    requires IsRun(states, steps) && k < |states|
    ensures Inv(states[k])
  {
    if k > 0 {
      RunKeepsInv(states, steps, k - 1);
      StepKeepsInv(states[k - 1], steps[k - 1]);
    }
  }

  // ---- One run at a time, nothing inherited -------------------------------

  /** At most one accepted send is between latch and exit, and a stored token or a pending stop is that run's. */
  lemma OneRunAtATime(states: seq<Session>, steps: seq<Step>, k: nat, a: nat, b: nat)
    requires IsRun(states, steps) && k < |states|
    requires a < |states[k].runs| && b < |states[k].runs|
    requires Active(states[k].runs[a]) && Active(states[k].runs[b])
    ensures a == b && states[k].querying
    ensures states[k].token.Some? ==> states[k].token == Some(a)
  {
    RunKeepsInv(states, steps, k);
  }

  /** An idle session carries neither a token nor a pending stop into the next send. */
  lemma IdleIsClean(states: seq<Session>, steps: seq<Step>, k: nat)
    requires IsRun(states, steps) && k < |states| && !states[k].querying
    ensures states[k].token.None? && !states[k].pending
    ensures forall r :: 0 <= r < |states[k].runs| ==> states[k].runs[r] == Done
  {
    RunKeepsInv(states, steps, k);
  }

  /** `Stop` was issued at step `j` while run `r` held the latch. */
  predicate StopsAt(s: Session, step: Step, r: nat) {
    step.Stop? && s.querying && |s.runs| == r + 1
  }

  lemma StoppedGrows(s: Session, step: Step, r: nat)
    requires Inv(s) && Enabled(s, step)
    ensures r in Next(s, step).stopped <==> r in s.stopped || StopsAt(s, step, r)
  {
  }

  /** The history field says what it should: a run is in `stopped` exactly when a stop hit its own latched epoch. */
  lemma {:induction false} StoppedIsHistory(states: seq<Session>, steps: seq<Step>, k: nat, r: nat)
    requires IsRun(states, steps) && k < |states|
    ensures r in states[k].stopped <==> exists j :: 0 <= j < k && StopsAt(states[j], steps[j], r)
  {
    hide Next, Inv, Enabled, StopsAt;
    if k > 0 {
      StoppedIsHistory(states, steps, k - 1, r);
      RunKeepsInv(states, steps, k - 1);
      StoppedGrows(states[k - 1], steps[k - 1], r);
    }
  }

  /** `delete_session` at step `j` took run `r`'s token. */
  predicate DeletesAt(s: Session, step: Step, r: nat) {
    step.Delete? && s.token == Some(r)
  }

  lemma {:induction false} DeletedIsHistory(states: seq<Session>, steps: seq<Step>, k: nat, r: nat)
    requires IsRun(states, steps) && k < |states|
    ensures r in states[k].deleted <==> exists j :: 0 <= j < k && DeletesAt(states[j], steps[j], r)
  {
    hide Inv, DeletesAt, Next, Enabled;
    if k > 0 {
      DeletedIsHistory(states, steps, k - 1, r);
      DeletedGrows(states[k - 1], steps[k - 1], r);
    }
  }

  lemma DeletedGrows(s: Session, step: Step, r: nat)
    requires Enabled(s, step)
    ensures r in Next(s, step).deleted <==> r in s.deleted || DeletesAt(s, step, r)
  {
  }

  /** A run's token fires only for a stop in the run's own epoch, a deletion that took it, or the run's own budget. */
  lemma NoInheritedStop(states: seq<Session>, steps: seq<Step>, k: nat, r: nat)
    requires IsRun(states, steps) && k < |states| && r in states[k].fired
    ensures r in states[k].overBudget || exists j :: 0 <= j < k && (StopsAt(states[j], steps[j], r) || DeletesAt(states[j], steps[j], r))
  {
    RunKeepsInv(states, steps, k);
    StoppedIsHistory(states, steps, k, r);
    DeletedIsHistory(states, steps, k, r);
  }

  /** A run that enters its stream loop already cancelled was stopped, or had its token taken by a deletion, in its own epoch. */
  lemma NoRunStartsCancelledUnasked(states: seq<Session>, steps: seq<Step>, k: nat, r: nat)
    requires IsRun(states, steps) && k < |steps|
    requires steps[k] == ConsumePending(r) && r in states[k + 1].fired
    ensures exists j :: 0 <= j < k && (StopsAt(states[j], steps[j], r) || DeletesAt(states[j], steps[j], r))
  {
    RunKeepsInv(states, steps, k);
    assert Enabled(states[k], steps[k]) && states[k + 1] == Next(states[k], steps[k]);
    assert r in states[k].stopped || r in states[k].deleted;
    StoppedIsHistory(states, steps, k, r);
    DeletedIsHistory(states, steps, k, r);
  }

  /**
   The way of a run nobody stops: from any idle state a send is accepted, stores
   its token, streams, takes events, and at the end leaves the session idle.
   */
  lemma RunGoesThrough(s: Session)
    requires Inv(s) && !s.querying
    ensures
      var r := |s.runs|;
      var s1 := Next(s, Send);
      && Enabled(s1, StoreToken(r)) && var s2 := Next(s1, StoreToken(r));
      && s2.token == Some(r) && Enabled(s2, ConsumePending(r)) && var s3 := Next(s2, ConsumePending(r));
      && s3.fired == s.fired && Enabled(s3, Event(r, false, false)) && Next(s3, Event(r, false, false)) == s3
      && Enabled(s3, StreamEnds(r)) && var s4 := Next(s3, StreamEnds(r));
      && Enabled(s4, Exit(r)) && Next(s4, Exit(r)) == s.(runs := s.runs + [Done], token := None, pending := false)
  {
    var r := |s.runs|;
    assert (s.runs + [Latched])[r := TokenStored][r := Streaming][r := Leaving][r := Done] == s.runs + [Done];
  }

  /** An event over budget cancels the run's own token, a failing one ends its loop, and so do a cancelled stream and a panic. */
  lemma StreamIsLeft(s: Session, r: nat, exceeded: bool, failed: bool)
    requires At(s, r, Streaming)
    ensures Enabled(s, Panic(r)) && At(Next(s, Panic(r)), r, Leaving) && Next(s, Panic(r)).fired == s.fired
    ensures r in s.fired ==> Enabled(s, StreamCancelled(r)) && At(Next(s, StreamCancelled(r)), r, Leaving)
    ensures r !in s.fired ==>
              && Enabled(s, Event(r, exceeded, failed))
              && var t := Next(s, Event(r, exceeded, failed));
                 && At(t, r, if failed then Leaving else Streaming)
                 && t.fired == (if exceeded then s.fired + {r} else s.fired)
                 && (exceeded && !failed ==> Enabled(t, StreamCancelled(r)) && !Enabled(t, Event(r, false, false)))
  {
  }

  // ---- A deleted session's run --------------------------------------------

  /**
   A deletion cancels the run that holds the latch exactly when that run has
   stored its token; in the window before, the cancel is dropped, for a deletion
   leaves no pending stop.
   */
  lemma DeleteReachesRunIff(states: seq<Session>, steps: seq<Step>, k: nat, r: nat)
    requires IsRun(states, steps) && k < |steps| && steps[k].Delete?
    requires states[k].querying && |states[k].runs| == r + 1
    ensures r in states[k + 1].fired <==> states[k].runs[r] != Latched
    ensures states[k].runs[r].Latched? ==> states[k + 1] == states[k]
  {
    RunKeepsInv(states, steps, k);
  }

  /** Witness: a session deleted in the window; its run outlives it, streaming. */
  lemma DeletedRunStreamsOn() returns (states: seq<Session>, steps: seq<Step>)
    ensures IsRun(states, steps) && |steps| == 4 && steps[1] == Delete
    ensures states[1].querying && At(states[4], 0, Streaming) && states[4].fired == {} && Enabled(states[4], Event(0, false, false))
  {
    steps := [Send, Delete, StoreToken(0), ConsumePending(0)];
    var s1 := Next(IDLE, steps[0]);
    var s2 := Next(s1, steps[1]);
    var s3 := Next(s2, steps[2]);
    states := [IDLE, s1, s2, s3, Next(s3, steps[3])];
  }

  // ---- No lost stop -------------------------------------------------------

  lemma {:induction false} StoppedStays(states: seq<Session>, steps: seq<Step>, j: nat, k: nat, r: nat)
    requires IsRun(states, steps) && j <= k < |states| && r in states[j].stopped
    ensures r in states[k].stopped
    decreases k
  {
    if j < k { StoppedStays(states, steps, j, k - 1, r); }
  }

  /**
   A stop issued while run `r` holds the latch fires `r`'s own token: at once, or
   (in the window before the token is consumed) no later than the run's first
   stream step. This holds at every later moment and for any number of stops.
   */
  lemma NoLostStop(states: seq<Session>, steps: seq<Step>, j: nat, k: nat, r: nat)
    requires IsRun(states, steps) && j < k < |states| && StopsAt(states[j], steps[j], r)
    ensures r < |states[k].runs|
    ensures r in states[k].fired || (states[k].pending && states[k].runs[r] in {Latched, TokenStored})
    ensures states[k].runs[r] !in {Latched, TokenStored} ==> r in states[k].fired
  {
    assert states[j + 1] == Next(states[j], steps[j]);
    StoppedStays(states, steps, j + 1, k, r);
    RunKeepsInv(states, steps, k);
  }

  /** After the stop the run handles no further engine event and never ends normally: it can only be cancelled (or panic). */
  lemma StoppedRunSeesNoEvent(states: seq<Session>, steps: seq<Step>, j: nat, k: nat, r: nat)
    requires IsRun(states, steps) && j < k < |steps| && StopsAt(states[j], steps[j], r)
    ensures !(steps[k].Event? && steps[k].run == r)
    ensures !(steps[k].StreamEnds? && steps[k].run == r)
    ensures At(states[k], r, Streaming) ==> Enabled(states[k], StreamCancelled(r))
  {
    NoLostStop(states, steps, j, k, r);
    assert Enabled(states[k], steps[k]);
  }

  /** The latch refuses every send until the old run has left, and the exit re-opens it. */
  lemma LatchReopensAtExit(states: seq<Session>, steps: seq<Step>, k: nat)
    requires IsRun(states, steps) && k < |steps|
    ensures states[k].querying && steps[k].Send? ==> states[k + 1] == states[k]
    ensures !states[k].querying && steps[k].Send? ==>
              states[k + 1].querying && At(states[k + 1], |states[k].runs|, Latched) && |states[k].runs| !in states[k + 1].fired
    ensures states[k].querying && !states[k + 1].querying ==> steps[k].Exit?
    ensures steps[k].Exit? ==> !states[k + 1].querying
  {
    RunKeepsInv(states, steps, k);
  }

  // ---- The session object -------------------------------------------------

  class CancellationToken {
    var cancelled: bool

    constructor ()
      ensures !cancelled
    {
      cancelled := false;
    }

    method Cancel()
      modifies this
      ensures cancelled
    {
      cancelled := true;
    }
  }

  /** The fields `send_message` and `cancel_session_query` share; `model` and `tokens` tie them to the transition system. */
  class SessionState {
    var querying: bool
    var slot: Option<CancellationToken>
    var cancelPending: bool
    ghost var model: Session
    ghost var tokens: map<nat, CancellationToken>

    ghost predicate Valid()
      reads this, tokens.Values
    {
      && querying == model.querying && cancelPending == model.pending
      && (slot.Some? <==> model.token.Some?)
      && (slot.Some? ==> model.token.value in tokens && tokens[model.token.value] == slot.value)
      && (forall r :: r in tokens ==> r < |model.runs| && model.runs[r] != Latched)
      && (forall r :: r in tokens ==> (tokens[r].cancelled <==> r in model.fired))
      && (forall a, b :: a in tokens && b in tokens && a != b ==> tokens[a] != tokens[b])
      && (forall r :: r in model.fired ==> r in tokens)
    }

    constructor ()
      ensures Valid() && model == IDLE && tokens == map[]
    {
      querying, slot, cancelPending := false, None, false;
      model, tokens := IDLE, map[];
    }

    /** Check and set under one lock. */
    method TryLatch() returns (accepted: bool)
      requires Valid()
      modifies this
      ensures Valid() && tokens == old(tokens)
      ensures accepted == !old(querying)
      ensures querying && slot == old(slot) && cancelPending == old(cancelPending)
      ensures model == Next(old(model), Send)
    {
      if querying {
        return false;
      }
      querying := true;
      accepted := true;
      model := Next(model, Send);
    }

    method StoreFreshToken(ghost run: nat) returns (token: CancellationToken)
      requires Valid() && At(model, run, Latched)
      modifies this
      ensures Valid() && fresh(token) && !token.cancelled
      ensures model == Next(old(model), StoreToken(run)) && tokens == old(tokens)[run := token]
      ensures slot == Some(token) && querying == old(querying) && cancelPending == old(cancelPending)
    {
      token := new CancellationToken();
      slot := Some(token);
      model, tokens := Next(model, StoreToken(run)), tokens[run := token];
    }

    /** `take_cancel_pending`, and the cancel it may lead to. */
    method ConsumeCancelPending(token: CancellationToken, ghost run: nat)
      requires Valid() && At(model, run, TokenStored) && run in tokens && tokens[run] == token
      modifies this, token
      ensures Valid() && tokens == old(tokens)
      ensures model == Next(old(model), ConsumePending(run))
      ensures token.cancelled <==> old(token.cancelled) || old(cancelPending)
      ensures !cancelPending && querying == old(querying) && slot == old(slot)
    {
      var was := cancelPending;
      cancelPending := false;
      if was {
        token.Cancel();
      }
      model := Next(model, ConsumePending(run));
    }

    /** `cancel_session_query`: take and fire the token, else leave a mark if the latch is up. */
    method CancelQuery()
      requires Valid()
      modifies this, tokens.Values
      ensures Valid() && tokens == old(tokens)
      ensures model == Next(old(model), Stop)
      ensures querying == old(querying) && slot == None
      ensures old(slot).Some? ==> old(slot).value.cancelled && cancelPending == old(cancelPending)
      ensures old(slot).None? ==> (cancelPending <==> old(cancelPending) || querying)
      ensures forall r :: r in tokens && Some(tokens[r]) != old(slot) ==> tokens[r].cancelled == old(tokens[r].cancelled)
    {
      var taken := slot;
      slot := None;
      if taken.Some? {
        taken.value.Cancel();
      } else if querying {
        cancelPending := true;
      }
      model := Next(model, Stop);
    }

    /** `cancel_session_run`, on behalf of `delete_session`: take and fire the token, and leave no mark. */
    method CancelForDelete()
      requires Valid()
      modifies this, tokens.Values
      ensures Valid() && tokens == old(tokens)
      ensures model == Next(old(model), Delete)
      ensures querying == old(querying) && cancelPending == old(cancelPending) && slot == None
      ensures old(slot).Some? ==> old(slot).value.cancelled
      ensures forall r :: r in tokens && Some(tokens[r]) != old(slot) ==> tokens[r].cancelled == old(tokens[r].cancelled)
    {
      var taken := slot;
      slot := None;
      if taken.Some? {
        taken.value.Cancel();
      }
      model := Next(model, Delete);
    }

    /** The exit block of the spawned task. */
    method ResetOnExit(ghost run: nat)
      requires Valid() && At(model, run, Leaving)
      modifies this
      ensures Valid() && tokens == old(tokens)
      ensures model == Next(old(model), Exit(run))
      ensures !querying && slot == None && !cancelPending
    {
      querying := false;
      slot := None;
      cancelPending := false;
      model := Next(model, Exit(run));
    }
  }
}
