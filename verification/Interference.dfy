/** One process of the running system, as its own code sees it.

    Between any two of its primitives the other processes perform any number of theirs, as far
    as the locks allow. Each primitive is this process's next step of the shared system, so
    code written against this class is one part of a run, whatever the others do. */
module Interference {
  import opened Optional
  import opened Temporal
  import opened Disk
  import opened Protocol
  import opened Locks
  import opened PolicyHistory
  import opened Knowledge
  import opened Legibility

  /** What the others cannot have changed while this process was at `pc`. */
  predicate Undisturbed(w: World, w': World, pc: Pc) {
    && (HoldsLocality(pc) ==>
          SamePair(w, w') && w'.origin == w.origin && w'.recoveries == w.recoveries)
    && (HoldsPolicy(pc) ==> PolicyUntouched(w, w') && w'.tickets == w.tickets)
  }

  /** What a process may rely on at its program point. */
  predicate Relies(w: World, pc: Pc, pid: nat) {
    && Owns(w, pc, pid) && HistoryAgrees(w) && HolderKnows(w, pc)
    && (HoldsLocality(pc) ==> Knows(w, pc))
  }

  /** The primitive did what it was asked to do, in the world `w` that it met: it was carried
      out, and a lock was free. Giving a lock back always works. */
  predicate Went(w: World, pc: Pc, o: Outcome) {
    match pc
    case Begin(_) => o.Ok? && w.localityOwner.None?
    case WantPolicy(_) => o.Ok? && w.policyOwner.None?
    case Save(_, _) => Saved(o)
    case Rollback(_, base) => Restored(o, base)
    case Unlock(_, _, _) => true
    case Discard(t, locked) => o.Ok? || (t.SelectPlace? && locked)
    case _ => o.Ok?
  }

  lemma Barred(w: World, q: Pc, e: Event)
    requires Owns(w, q, e.pid) && HistoryAgrees(w) && HolderKnows(w, q)
    ensures
      var w' := Next(w, q, e).world;
      && (w.localityOwner.Some? && !HoldsLocality(q) ==>
            SamePair(w, w') && w'.origin == w.origin && w'.recoveries == w.recoveries)
      && (w.policyOwner.Some? && !HoldsPolicy(q) ==> PolicyUntouched(w, w') && w'.tickets == w.tickets)
  {
    NextMoves(w, q, e);
    HistoryMoves(w, q, e);
    if w.localityOwner.Some? && !HoldsLocality(q) {
      OutsiderKeepsPair(w, q, e);
      OutsiderCountsNothing(w, q, e);
    }
  }

  lemma OutsiderCountsNothing(w: World, q: Pc, e: Event)
    requires Owns(w, q, e.pid) && w.localityOwner.Some? && !HoldsLocality(q)
    ensures Next(w, q, e).world.origin == w.origin
    ensures Next(w, q, e).world.recoveries == w.recoveries
  {
  }

  /** A step of another process. */
  lemma Elsewhere(s: System, e: Event, me: nat)
    requires Informed(s) && me < |s.procs| && e.pid != me
    ensures |Step(s, e).procs| == |s.procs| && Step(s, e).procs[me] == s.procs[me]
    ensures Undisturbed(s.world, Step(s, e).world, s.procs[me])
  {
    if e.pid < |s.procs| {
      var q := s.procs[e.pid];
      assert Owns(s.world, q, e.pid) && q in s.procs;
      assert Owns(s.world, s.procs[me], me);
      Barred(s.world, q, e);
    }
  }

  class Process {
    const me: nat
    /** All processes and the disk they share. */
    var system: System
    /** Where the run began, and what has happened in it. */
    ghost const start: System
    ghost var events: seq<Event>
    /** Primitives of this process so far that failed or found their lock taken. */
    ghost var failures: nat

    ghost predicate Valid()
      reads this
    {
      Initial(start) && system == Run(start, events) && me < |system.procs|
    }

    /** Exactly a call that does not succeed is counted as a failure. */
    twostate predicate Counts(ok: bool)
      reads this
    {
      failures == old(failures) + (if ok then 0 else 1)
    }

    /** A call that does not succeed has met a failure. */
    twostate predicate Excused(ok: bool)
      reads this
    {
      failures >= old(failures) && (ok || failures > old(failures))
    }

    function At(): Pc
      requires me < |system.procs|
      reads this
    {
      system.procs[me]
    }

    function Disk(): Disk
      reads this
    {
      system.world.disk
    }

    constructor (system: System, me: nat)
      requires Initial(system) && me < |system.procs|
      ensures Valid() && this.me == me && this.system == system && At().Idle? && failures == 0
    {
      this.me, this.system, this.start, this.events, failures := me, system, system, [], 0;
      assert system.procs[me] in system.procs;
    }

    lemma WellInformed()
      requires Valid()
      ensures Informed(system) && Relies(system.world, At(), me)
      ensures Legible(Disk()) && Carried(At())
    {
      RunIsLegible(start, events);
      InitialIsInformed(start);
      RunKeepsInformed(start, events);
      assert Owns(system.world, system.procs[me], me) && At() in system.procs;
    }

    method Happen(e: Event)
      requires Valid()
      modifies `system, `events
      ensures Valid() && system == Step(old(system), e)
    {
      assert (events + [e])[..|events|] == events;
      WellInformed();
      StepKeepsInformed(system, e);
      assert |Step(system, e).procs| == |system.procs|;
      system, events := Step(system, e), events + [e];
    }

    /** The other processes run for a while. */
    method Others()
      requires Valid()
      modifies `system, `events
      ensures Valid() && At() == old(At())
      ensures Undisturbed(old(system.world), system.world, old(At()))
    {
      var others: seq<Event> := *;
      for i := 0 to |others|
        invariant Valid() && At() == old(At())
        invariant Undisturbed(old(system.world), system.world, old(At()))
      {
        if others[i].pid != me {
          WellInformed();
          Elsewhere(system, others[i], me);
          Happen(others[i]);
        }
      }
    }

    /** This process takes up a task. */
    method Begin(t: Task)
      requires Valid() && At().Idle? && Proper(t)
      modifies `system, `events
      ensures Valid() && At() == Entry(t)
    {
      Happen(Start(me, t));
    }

    /** A read that is no step of a task; it may fail. */
    method Attempt() returns (ok: bool)
      requires Valid()
      modifies this
      ensures Valid() && At() == old(At()) && Undisturbed(old(system.world), system.world, old(At()))
      ensures Counts(ok)
    {
      Others();
      ok := *;
      failures := failures + (if ok then 0 else 1);
    }

    /** The next primitive of this process, in the world `w` that it meets; one that is not
        `possible` is not attempted. */
    method Call(possible: bool) returns (o: Outcome, ghost w: World)
      requires Valid()
      modifies this
      ensures Valid() && !o.Crash? && (!possible ==> o.Fail?)
      ensures Undisturbed(old(system.world), w, old(At())) && Relies(w, old(At()), me)
      ensures Legible(w.disk) && Carried(old(At()))
      ensures Counts(!possible || Went(w, old(At()), o))
      ensures system.world == Advance(w, me, old(At()), o).world
      ensures At() == Advance(w, me, old(At()), o).pc
    {
      Others();
      o := AnyOutcome();
      if !possible {
        o := Fail;
      }
      w := system.world;
      WellInformed();
      failures := failures + (if !possible || Went(w, At(), o) then 0 else 1);
      Happen(Act(me, o));
    }

    method AnyOutcome() returns (o: Outcome)
      ensures !o.Crash?
    {
      var ok: bool, gone: bool, clock: bool, seconds: bool := *, *, *, *;
      o := if ok && clock && seconds then Ok
           else if ok then Partly(clock, seconds)
           else if gone then FailGone
           else Fail;
    }
  }
}
