/**
 The refcounted registry of live runs per session, behind RAII guards, and the
 query for the sole live session.
 */
module ActiveRuns {
  import opened Common

  function Registered(counts: map<string, nat>, id: string): map<string, nat> {
    counts[id := (if id in counts then counts[id] else 0) + 1]
  }

  /** `remove_if_mut`: decrement, and remove the entry in the same operation when it reaches zero. */
  function Dropped(counts: map<string, nat>, id: string): map<string, nat> {
    if id !in counts || counts[id] == 0 then counts
    else if counts[id] == 1 then counts - {id}
    else counts[id := counts[id] - 1]
  }

  /** The counts are the multiset of live guards, with no zero entry stored. */
  ghost predicate CountsGuards(counts: map<string, nat>, guards: multiset<string>) {
    forall id :: (id in counts <==> id in guards) && (id in counts ==> counts[id] == guards[id])
  }

  // ---- Any order of registers and drops -----------------------------------

  datatype Op = Register(id: string) | Drop(id: string)

  /** The guards alive after `ops`. */
  function Guards(ops: seq<Op>): multiset<string> {
    if ops == [] then multiset{}
    else
      var before := Guards(ops[..|ops| - 1]);
      match ops[|ops| - 1]
      case Register(id) => before + multiset{id}
      case Drop(id) => before - multiset{id}
  }

  function Counts(ops: seq<Op>): map<string, nat> {
    if ops == [] then map[]
    else
      var before := Counts(ops[..|ops| - 1]);
      match ops[|ops| - 1]
      case Register(id) => Registered(before, id)
      case Drop(id) => Dropped(before, id)
  }

  lemma RegisterCounts(counts: map<string, nat>, guards: multiset<string>, id: string)
    requires CountsGuards(counts, guards)
    ensures CountsGuards(Registered(counts, id), guards + multiset{id})
  {
    var counts', guards' := Registered(counts, id), guards + multiset{id};
    forall d ensures (d in counts' <==> d in guards') && (d in counts' ==> counts'[d] == guards'[d]) {
      assert (d in counts <==> d in guards) && (d in counts ==> counts[d] == guards[d]);
      assert guards'[d] == guards[d] + if d == id then 1 else 0;
    }
  }

  lemma DropCounts(counts: map<string, nat>, guards: multiset<string>, id: string)
    requires CountsGuards(counts, guards)
    ensures CountsGuards(Dropped(counts, id), guards - multiset{id})
  {
    var counts', guards' := Dropped(counts, id), guards - multiset{id};
    forall d ensures (d in counts' <==> d in guards') && (d in counts' ==> counts'[d] == guards'[d]) {
      assert (d in counts <==> d in guards) && (d in counts ==> counts[d] == guards[d]);
      assert guards'[d] == if d == id && guards[d] > 0 then guards[d] - 1 else guards[d];
    }
  }

  /** After any sequence of registers and drops each session's count is its number of live guards. */
  lemma {:induction false} CountsAreGuards(ops: seq<Op>)
    ensures CountsGuards(Counts(ops), Guards(ops))
  {
    if ops != [] {
      var before := ops[..|ops| - 1];
      CountsAreGuards(before);
      match ops[|ops| - 1]
      case Register(id) => RegisterCounts(Counts(before), Guards(before), id);
      case Drop(id) => DropCounts(Counts(before), Guards(before), id);
    }
  }

  /** No phantom run: when every guard taken has been dropped, the registry is empty. */
  lemma NoPhantomRun(ops: seq<Op>)
    requires Guards(ops) == multiset{}
    ensures Counts(ops) == map[]
  {
    CountsAreGuards(ops);
    assert forall id :: id in Counts(ops) ==> id in Guards(ops);
  }

  lemma SingleSession(counts: map<string, nat>, guards: multiset<string>, s: string)
    requires CountsGuards(counts, guards) && s in guards && forall d :: d in guards ==> d == s
    ensures |counts| == 1
  {
    assert counts.Keys == {s};
  }

  // ---- The registry object ------------------------------------------------

  class ActiveRunRegistry {
    var counts: map<string, nat>
    ghost var guards: multiset<string>

    ghost predicate Valid()
      reads this
    {
      CountsGuards(counts, guards)
    }

    constructor ()
      ensures Valid() && counts == map[] && guards == multiset{}
    {
      counts, guards := map[], multiset{};
    }

    /** `ActiveSessionRunGuard::register`. */
    method TakeGuard(id: string)
      requires Valid()
      modifies this
      ensures Valid() && guards == old(guards) + multiset{id}
      ensures counts == Registered(old(counts), id)
    {
      RegisterCounts(counts, guards, id);
      if id !in counts {
        counts := counts[id := 0];
      }
      counts := counts[id := counts[id] + 1];
      guards := guards + multiset{id};
    }

    /** `Drop for ActiveSessionRunGuard`. */
    method ReleaseGuard(id: string)
      requires Valid() && id in guards
      modifies this
      ensures Valid() && guards == old(guards) - multiset{id}
      ensures counts == Dropped(old(counts), id)
    {
      DropCounts(counts, guards, id);
      if id in counts {
        counts := counts[id := counts[id] - 1];
        if counts[id] == 0 {
          counts := counts - {id};
        }
      }
      guards := guards - multiset{id};
    }

    /**
     `sole_active_run_session`: `rail` holds the ids on the window rail, or is
     None when its lock is contended. The answer names `s` exactly when `s` is
     the only session with live guards and is on the rail.
     */
    method SoleSession(rail: Option<seq<string>>) returns (r: Option<string>)
      requires Valid()
      ensures forall s :: r == Some(s) <==>
                && rail.Some? && s in rail.value
                && s in guards && forall d :: d in guards ==> d == s
    {
      forall s | s in guards && forall d :: d in guards ==> d == s ensures |counts| == 1 {
        SingleSession(counts, guards, s);
      }
      if |counts| != 1 {
        return None;
      }
      var run :| run in counts;
      assert counts.Keys == {run} by {
        assert |counts.Keys - {run}| == 0;
      }
      assert forall d :: d in guards <==> d == run;
      if rail.None? {
        return None;
      }
      var i := 0;
      while i < |rail.value|
        invariant 0 <= i <= |rail.value|
        invariant forall j :: 0 <= j < i ==> rail.value[j] != run
      {
        if rail.value[i] == run {
          return Some(run);
        }
        i := i + 1;
      }
      r := None;
    }
  }
}
