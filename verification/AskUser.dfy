/**
 The `ask_user` round trip: a question parks a one-shot sender under a fresh
 request id and waits; an answer takes the sender out of the map and sends, the
 auto-continue timer may run out first, and the sender may be lost when the app
 goes down. Any number of questions and responders interleave; taking the sender
 and sending on it are two steps, and so are the timer and the map removal.
 */
module AskUser {
  import opened Common

  const AUTO_CONTINUE_ANSWER :=
    "(\U{7528}\U{6237}\U{672A}\U{56DE}\U{7B54},\U{8BF7}\U{6309}\U{4F60}\U{7684}\U{6700}\U{4F73}\U{5224}\U{65AD}\U{7EE7}\U{7EED})"

  type Answers = seq<string>

  datatype Channel = Empty | Sent(answers: Answers) | Lost

  datatype Outcome = Answered(answers: Answers) | AutoContinued | NoInput

  /** `Abandoned`: the run was aborted and the wait dropped with it. */
  datatype Wait = Waiting | Elapsed | Resolved(outcome: Outcome) | Abandoned

  /** `timed` is the auto-continue switch as read when the question was asked. */
  datatype Question = Question(timed: bool, channel: Channel, wait: Wait)

  /**
   `pending` are the ids whose sender sits in the map, `inFlight` the answers of
   responders that took a sender out and have not sent yet. `accepted` is history:
   the first answer the map handed a sender to.
   */
  datatype System = System(
    questions: map<string, Question>,
    pending: set<string>,
    inFlight: map<string, Answers>,
    accepted: map<string, Answers>)

  datatype Step =
    | Ask(id: string, timed: bool)
    | Respond(id: string, answers: Answers)
    | Deliver(id: string)
    | LoseSender(id: string)
    | Wake(id: string)
    | TimerFires(id: string)
    | TimeoutRemoves(id: string)
    | Abandon(id: string)

  const EMPTY := System(map[], {}, map[], map[])

  predicate WaitIs(s: System, id: string, wait: Wait) {
    id in s.questions && s.questions[id].wait == wait
  }

  /** The timer wraps the wait and polls it first: it cannot fire once the channel is ready. */
  predicate Enabled(s: System, step: Step) {
    match step
    case Ask(id, _) => id !in s.questions
    case Respond(_, _) => true
    case Deliver(id) => id in s.inFlight && id in s.questions
    case LoseSender(id) => (id in s.pending || id in s.inFlight) && id in s.questions
    case Wake(id) => WaitIs(s, id, Waiting) && !s.questions[id].channel.Empty?
    case TimerFires(id) => WaitIs(s, id, Waiting) && s.questions[id].timed && s.questions[id].channel.Empty?
    case TimeoutRemoves(id) => WaitIs(s, id, Elapsed)
    case Abandon(id) => WaitIs(s, id, Waiting)
  }

  function Next(s: System, step: Step): System
    requires Enabled(s, step)
  {
    match step
    case Ask(id, timed) =>
      s.(questions := s.questions[id := Question(timed, Empty, Waiting)], pending := s.pending + {id})
    case Respond(id, answers) =>
      if id in s.pending
      then s.(pending := s.pending - {id}, inFlight := s.inFlight[id := answers], accepted := s.accepted[id := answers])
      else s
    case Deliver(id) =>
      var q := s.questions[id];
      var t := s.(inFlight := s.inFlight - {id});
      if q.wait.Waiting? then t.(questions := s.questions[id := q.(channel := Sent(s.inFlight[id]))]) else t
    case LoseSender(id) =>
      var q := s.questions[id];
      s.(pending := s.pending - {id}, inFlight := s.inFlight - {id},
         questions := s.questions[id := q.(channel := Lost)])
    case Wake(id) =>
      var q := s.questions[id];
      var outcome := if q.channel.Sent? then Answered(q.channel.answers) else NoInput;
      s.(questions := s.questions[id := q.(wait := Resolved(outcome))])
    case TimerFires(id) => s.(questions := s.questions[id := s.questions[id].(wait := Elapsed)])
    case TimeoutRemoves(id) =>
      s.(pending := s.pending - {id}, questions := s.questions[id := s.questions[id].(wait := Resolved(AutoContinued))])
    case Abandon(id) => s.(questions := s.questions[id := s.questions[id].(wait := Abandoned)])
  }

  ghost predicate IsRun(states: seq<System>, steps: seq<Step>) {
    && |states| == |steps| + 1
    && states[0] == EMPTY
    && forall k :: 0 <= k < |steps| ==> Enabled(states[k], steps[k]) && states[k + 1] == Next(states[k], steps[k])
  }

  // ---- Invariant ---------------------------------------------------------

  /** A sender is in one place: the map, a responder's hands, used, or lost. */
  ghost predicate QuestionInv(s: System, id: string)
    requires id in s.questions
  {
    var q := s.questions[id];
    && (id in s.accepted ==> id !in s.pending)
    && (id in s.inFlight ==> id in s.accepted && s.inFlight[id] == s.accepted[id])
    && (id in s.pending || id in s.inFlight ==> q.channel.Empty?)
    && (q.channel.Sent? ==> id in s.accepted && s.accepted[id] == q.channel.answers && id !in s.inFlight)
    && match q.wait {
         case Waiting => q.channel.Empty? ==> id in s.pending || id in s.inFlight
         case Elapsed => q.timed && !q.channel.Sent?
         case Abandoned => true
         case Resolved(outcome) =>
           && id !in s.pending
           && match outcome {
                case Answered(a) => q.channel == Sent(a)
                case AutoContinued => q.timed && !q.channel.Sent?
                case NoInput => q.channel.Lost?
              }
       }
  }

  ghost predicate Inv(s: System) {
    && s.pending <= s.questions.Keys && s.inFlight.Keys <= s.questions.Keys && s.accepted.Keys <= s.questions.Keys
    && forall id :: id in s.questions ==> QuestionInv(s, id)
  }

  /** Frame: a step about one id leaves every other id's question, sender, responder and accepted answer alone. */
  lemma OtherIdsUntouched(s: System, step: Step, other: string)
    requires Enabled(s, step) && other != step.id
    ensures
      var t := Next(s, step);
      && (other in t.questions <==> other in s.questions)
      && (other in s.questions ==> t.questions[other] == s.questions[other])
      && (other in t.pending <==> other in s.pending)
      && (other in t.inFlight <==> other in s.inFlight)
      && (other in s.inFlight ==> t.inFlight[other] == s.inFlight[other])
      && (other in t.accepted <==> other in s.accepted)
      && (other in s.accepted ==> t.accepted[other] == s.accepted[other])
  {
  }

  lemma StepKeepsInv(s: System, step: Step)
    requires Inv(s) && Enabled(s, step)
    ensures Inv(Next(s, step))
  {
    var t := Next(s, step);
    forall id | id in t.questions ensures QuestionInv(t, id) {
      if id in s.questions { assert QuestionInv(s, id); }
      if id != step.id { OtherIdsUntouched(s, step, id); }
    }
  }

  lemma {:induction false} RunKeepsInv(states: seq<System>, steps: seq<Step>, k: nat)
    requires IsRun(states, steps) && k < |states|
    ensures Inv(states[k])
  {
    if k > 0 {
      RunKeepsInv(states, steps, k - 1);
      StepKeepsInv(states[k - 1], steps[k - 1]);
    }
  }

  // ---- What every run guarantees ------------------------------------------

  /**
   What a resolved question returned: the accepted response, the auto-continue
   answer (only with the switch on), or NoInput (only when the sender was lost).
   Its id is gone from the map.
   */
  lemma ResultIsJustified(states: seq<System>, steps: seq<Step>, k: nat, id: string)
    requires IsRun(states, steps) && k < |states|
    requires id in states[k].questions && states[k].questions[id].wait.Resolved?
    ensures
      var s := states[k];
      var q := s.questions[id];
      && id !in s.pending
      && (q.wait.outcome.Answered? ==> id in s.accepted && q.wait.outcome.answers == s.accepted[id])
      && (q.wait.outcome.AutoContinued? ==> q.timed)
      && (q.wait.outcome.NoInput? ==> q.channel.Lost?)
  {
    RunKeepsInv(states, steps, k);
    assert QuestionInv(states[k], id);
  }

  /** What one step can do to a question: the switch never changes, a settled wait stays, and a sender leaves the map for good. */
  lemma QuestionStep(s: System, step: Step, id: string)
    requires Enabled(s, step) && id in s.questions
    ensures
      var t := Next(s, step);
      && id in t.questions && t.questions[id].timed == s.questions[id].timed
      && (s.questions[id].wait.Resolved? || s.questions[id].wait.Abandoned? ==> WaitIs(t, id, s.questions[id].wait))
      && (s.questions[id].wait.Abandoned? ==> (id in t.pending <==> id in s.pending && !TakesSender(step, id)))
  {
    if step.id != id { OtherIdsUntouched(s, step, id); }
  }

  /** Resolved once: the outcome a wait yields is the one it keeps. */
  lemma {:induction false} ResolvedForever(states: seq<System>, steps: seq<Step>, j: nat, k: nat, id: string)
    requires IsRun(states, steps) && j <= k < |states|
    requires id in states[j].questions && states[j].questions[id].wait.Resolved?
    ensures id in states[k].questions && states[k].questions[id].wait == states[j].questions[id].wait
    ensures states[k].questions[id].timed == states[j].questions[id].timed
    decreases k
  {
    hide Next, Enabled;
    if j < k {
      ResolvedForever(states, steps, j, k - 1, id);
      QuestionStep(states[k - 1], steps[k - 1], id);
    }
  }

  /** The first accepted response stands: no later one replaces it. */
  lemma {:induction false} FirstResponseStands(states: seq<System>, steps: seq<Step>, j: nat, k: nat, id: string)
    requires IsRun(states, steps) && j <= k < |states| && id in states[j].accepted
    ensures id in states[k].accepted && states[k].accepted[id] == states[j].accepted[id]
    decreases k
  {
    if j < k {
      FirstResponseStands(states, steps, j, k - 1, id);
      RunKeepsInv(states, steps, k - 1);
      assert QuestionInv(states[k - 1], id);
      if steps[k - 1].id != id { OtherIdsUntouched(states[k - 1], steps[k - 1], id); }
    }
  }

  /** A response to an id already answered, resolved or never asked changes nothing at all. */
  lemma LateResponsesAreNoOps(states: seq<System>, steps: seq<Step>, k: nat)
    requires IsRun(states, steps) && k < |steps| && steps[k].Respond?
    ensures
      var s, id := states[k], steps[k].id;
      && (id in s.accepted || id !in s.questions || s.questions[id].wait.Resolved? ==> states[k + 1] == s)
      && (states[k + 1] != s ==> id in s.pending && states[k + 1].accepted == s.accepted[id := steps[k].answers])
  {
    RunKeepsInv(states, steps, k);
    var s, id := states[k], steps[k].id;
    if id in s.questions { assert QuestionInv(s, id); }
  }

  /** A response to a question whose sender sits in the map is accepted, and its answer is on its way. */
  lemma RespondIsAccepted(states: seq<System>, steps: seq<Step>, k: nat, id: string, a: Answers)
    requires IsRun(states, steps) && k < |steps| && steps[k] == Respond(id, a) && id in states[k].pending
    ensures
      var t := states[k + 1];
      id !in t.pending && id in t.accepted && t.accepted[id] == a && id in t.inFlight && t.inFlight[id] == a && Enabled(t, Deliver(id))
  {
    RunKeepsInv(states, steps, k);
    assert Enabled(states[k], steps[k]);
  }

  predicate Cuts(step: Step, id: string) {
    (step.LoseSender? || step.TimerFires?) && step.id == id
  }

  /** While the timer does not run out, nor the sender get lost, an accepted answer is what the question returns, unless the wait is dropped. */
  lemma {:induction false} AcceptedIsReturned(states: seq<System>, steps: seq<Step>, j: nat, k: nat, id: string, a: Answers)
    requires IsRun(states, steps) && j <= k < |states|
    requires WaitIs(states[j], id, Waiting) && id in states[j].accepted && states[j].accepted[id] == a
    requires !states[j].questions[id].channel.Lost?
    requires forall m :: j <= m < k ==> !Cuts(steps[m], id)
    ensures id in states[k].questions && states[k].questions[id].wait in {Waiting, Resolved(Answered(a)), Abandoned}
    ensures WaitIs(states[k], id, Waiting) ==> !states[k].questions[id].channel.Lost? && (Enabled(states[k], Deliver(id)) || Enabled(states[k], Wake(id)))
    decreases k
  {
    FirstResponseStands(states, steps, j, k, id);
    RunKeepsInv(states, steps, k);
    if j < k {
      AcceptedIsReturned(states, steps, j, k - 1, id, a);
      RunKeepsInv(states, steps, k - 1);
      FirstResponseStands(states, steps, j, k - 1, id);
      assert QuestionInv(states[k - 1], id) && !Cuts(steps[k - 1], id) && Enabled(states[k - 1], steps[k - 1]);
      if steps[k - 1].id != id { OtherIdsUntouched(states[k - 1], steps[k - 1], id); }
    }
    assert QuestionInv(states[k], id);
  }

  lemma {:induction false} TimedIsFixed(states: seq<System>, steps: seq<Step>, j: nat, k: nat, id: string)
    requires IsRun(states, steps) && j <= k < |states| && id in states[j].questions
    ensures id in states[k].questions && states[k].questions[id].timed == states[j].questions[id].timed
    decreases k
  {
    hide Next, Enabled;
    if j < k {
      TimedIsFixed(states, steps, j, k - 1, id);
      QuestionStep(states[k - 1], steps[k - 1], id);
    }
  }

  /** With auto-continue off when the question was asked, it never times out, however long the run. */
  lemma UntimedNeverTimesOut(states: seq<System>, steps: seq<Step>, j: nat, k: nat, id: string)
    requires IsRun(states, steps) && j < k < |states| && steps[j] == Ask(id, false)
    ensures id in states[k].questions && states[k].questions[id].wait != Elapsed
    ensures states[k].questions[id].wait != Resolved(AutoContinued)
  {
    assert states[j + 1] == Next(states[j], steps[j]);
    TimedIsFixed(states, steps, j + 1, k, id);
    RunKeepsInv(states, steps, k);
    assert QuestionInv(states[k], id);
  }

  /** An answer delivered while the question still waits is what the question returns, timer or not. */
  lemma {:induction false} DeliveredAnswerWins(states: seq<System>, steps: seq<Step>, j: nat, k: nat, id: string, a: Answers)
    requires IsRun(states, steps) && j <= k < |states|
    requires WaitIs(states[j], id, Waiting) && states[j].questions[id].channel == Sent(a)
    ensures id in states[k].questions && states[k].questions[id].channel == Sent(a)
    ensures states[k].questions[id].wait in {Waiting, Resolved(Answered(a)), Abandoned}
    ensures states[k].questions[id].wait == Waiting ==> Enabled(states[k], Wake(id))
    decreases k
  {
    if j < k {
      DeliveredAnswerWins(states, steps, j, k - 1, id, a);
      RunKeepsInv(states, steps, k - 1);
      assert QuestionInv(states[k - 1], id);
      if steps[k - 1].id != id { OtherIdsUntouched(states[k - 1], steps[k - 1], id); }
    }
  }

  /** A dropped wait leaves its sender in the map: no timer removes it, only a response or the loss of the sender. */
  lemma {:induction false} AbandonedEntryStays(states: seq<System>, steps: seq<Step>, j: nat, k: nat, id: string)
    requires IsRun(states, steps) && j <= k < |states|
    requires WaitIs(states[j], id, Abandoned) && id in states[j].pending
    ensures WaitIs(states[k], id, Abandoned)
    ensures id !in states[k].pending <==> exists m :: j <= m < k && TakesSender(steps[m], id)
    decreases k
  {
    hide Next, Enabled, TakesSender;
    if j < k {
      AbandonedEntryStays(states, steps, j, k - 1, id);
      QuestionStep(states[k - 1], steps[k - 1], id);
    }
  }

  predicate TakesSender(step: Step, id: string) {
    (step.Respond? || step.LoseSender?) && step.id == id
  }

  /** A waiting question can always still be resolved: by a response, a delivery, or by waking up. */
  lemma WaitingIsAnswerable(states: seq<System>, steps: seq<Step>, k: nat, id: string)
    requires IsRun(states, steps) && k < |states| && WaitIs(states[k], id, Waiting)
    ensures id in states[k].pending || Enabled(states[k], Deliver(id)) || Enabled(states[k], Wake(id))
  {
    RunKeepsInv(states, steps, k);
    assert QuestionInv(states[k], id);
  }

  /** A fresh id can be asked about; the question waits, with its sender in the map. A waiting question can be dropped, and leaves the map alone. */
  lemma AskGoesThrough(s: System, id: string, timed: bool)
    requires id !in s.questions
    ensures
      && Enabled(s, Ask(id, timed)) && var t := Next(s, Ask(id, timed));
      && t == s.(questions := s.questions[id := Question(timed, Empty, Waiting)], pending := s.pending + {id})
      && Enabled(t, Abandon(id)) && WaitIs(Next(t, Abandon(id)), id, Abandoned) && Next(t, Abandon(id)).pending == t.pending
  {
  }

  /** A timed question that nobody has answered can run into its timer; it then returns the preset answer and its id leaves the map. */
  lemma TimeoutGoesThrough(s: System, id: string)
    requires WaitIs(s, id, Waiting) && s.questions[id].timed && s.questions[id].channel == Empty
    ensures Enabled(s, TimerFires(id)) && Enabled(Next(s, TimerFires(id)), TimeoutRemoves(id))
    ensures
      var t := Next(Next(s, TimerFires(id)), TimeoutRemoves(id));
      && WaitIs(t, id, Resolved(AutoContinued)) && t.pending == s.pending - {id}
      && t.inFlight == s.inFlight && t.accepted == s.accepted
  {
  }

  /** The sender can be lost while it sits in the map or is on its way; a waiting question then wakes without input. */
  lemma LostSenderWakes(s: System, id: string)
    requires WaitIs(s, id, Waiting) && (id in s.pending || id in s.inFlight)
    ensures Enabled(s, LoseSender(id)) && Enabled(Next(s, LoseSender(id)), Wake(id))
    ensures WaitIs(Next(Next(s, LoseSender(id)), Wake(id)), id, Resolved(NoInput))
    ensures id !in Next(s, LoseSender(id)).pending && id !in Next(s, LoseSender(id)).inFlight
  {
  }

  // ---- The pending map ----------------------------------------------------

  /**
   What `Respond` of the map promises is the response and its delivery with no step
   in between: the entry goes, and the answer lands if the wait still has its
   receiver; an id not in the map changes nothing.
   */
  lemma RespondRefines(s: System, id: string, answers: Answers)
    requires Inv(s)
    ensures
      var t := Next(s, Respond(id, answers));
      if id !in s.pending then t == s
      else
        && Enabled(t, Deliver(id))
        && var u := Next(t, Deliver(id));
           && u.pending == s.pending - {id} && u.inFlight == s.inFlight && u.accepted == s.accepted[id := answers]
           && u.questions.Keys == s.questions.Keys
           && u.questions[id] == (if s.questions[id].wait == Waiting then s.questions[id].(channel := Sent(answers)) else s.questions[id])
  {
    if id in s.pending { assert QuestionInv(s, id); }
  }

  /** A one-shot channel as its sender sees it. */
  class OneShot {
    var value: Option<Answers>
    var receiverGone: bool

    constructor ()
      ensures value == None && !receiverGone
    {
      value, receiverGone := None, false;
    }

    method Send(answers: Answers) returns (delivered: bool)
      modifies this
      ensures delivered == !old(receiverGone)
      ensures value == (if delivered then Some(answers) else old(value)) && receiverGone == old(receiverGone)
    {
      delivered := !receiverGone;
      if delivered {
        value := Some(answers);
      }
    }
  }

  class PendingQuestions {
    var entries: map<string, OneShot>

    constructor ()
      ensures entries == map[]
    {
      entries := map[];
    }

    /** `ask_question` up to the wait; request ids are fresh. */
    method Park(id: string) returns (channel: OneShot)
      requires id !in entries
      modifies this
      ensures fresh(channel) && channel.value == None && !channel.receiverGone
      ensures entries == old(entries)[id := channel]
    {
      channel := new OneShot();
      entries := entries[id := channel];
    }

    /** `respond_ask_user`; `broadcast` is whether the resolution is announced. Always succeeds. */
    method Respond(id: string, answers: Answers) returns (broadcast: bool)
      modifies this, if id in entries then {entries[id]} else {}
      ensures broadcast == (id in old(entries))
      ensures entries == old(entries) - {id}
      ensures broadcast ==>
                old(entries[id]).value == (if old(entries[id].receiverGone) then old(entries[id].value) else Some(answers))
    {
      if id !in entries {
        assert entries - {id} == entries;
        return false;
      }
      var sender := entries[id];
      entries := entries - {id};
      var _ := sender.Send(answers);
      broadcast := true;
    }

    /** The timed-out arm: the receiver is dropped, the entry removed, the preset answer returned. */
    method Expire(id: string, channel: OneShot) returns (answers: Answers)
      modifies this, channel
      ensures entries == old(entries) - {id}
      ensures channel.receiverGone && channel.value == old(channel.value)
      ensures answers == ["(\U{7528}\U{6237}\U{672A}\U{56DE}\U{7B54},\U{8BF7}\U{6309}\U{4F60}\U{7684}\U{6700}\U{4F73}\U{5224}\U{65AD}\U{7EE7}\U{7EED})"]
    {
      channel.receiverGone := true;
      entries := entries - {id};
      answers := [AUTO_CONTINUE_ANSWER];
    }
  }
}
