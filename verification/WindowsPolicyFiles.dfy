/** The three file routines of one process, running while other processes do as they please.

    Between any two system calls of this process the others perform any number of their own,
    so what these methods promise holds under every interference. */
module WindowsPolicyFiles {
  import opened Optional
  import opened Bytes
  import opened WindowsPublication
  import opened WindowsSafety

  /** Another process was in the way of this system call. */
  predicate InTheWay(pc: Pc, o: Outcome, serial: nat, w: World) {
    o.Busy? || (pc.Creating? && o.Ok? && Private(serial) in w.volume.dir)
  }

  class PolicyFiles {
    const me: nat
    /** The machine this process is part of. */
    var system: System
    var sequence: nat
    /** System calls of this process so far that failed for good. */
    ghost var failures: nat
    /** Creations that met a taken name, and renames that collided with another process. */
    ghost var taken: nat
    ghost var collisions: nat

    /** What one system call adds to the counts. */
    twostate predicate Counts(pc: Pc, o: Outcome, w: World)
      reads this
    {
      var busy := InTheWay(pc, o, sequence, w);
      && taken == old(taken) + (if pc.Creating? && busy then 1 else 0)
      && collisions == old(collisions) + (if pc.Moving? && busy then 1 else 0)
      && failures == old(failures)
           + (if o.Fail? || (busy && !pc.Creating? && !pc.Moving?) then 1 else 0)
    }

    /** Counts never go down, and a routine that does not succeed has met a failure. */
    twostate predicate Excused(ok: bool)
      reads this
    {
      && failures >= old(failures) && taken >= old(taken) && collisions >= old(collisions)
      && (ok || failures > old(failures))
    }

    ghost predicate Valid()
      reads this
    {
      Sound(system) && me < |system.procs|
    }

    function At(): Pc
      requires me < |system.procs|
      reads this
    {
      system.procs[me]
    }

    constructor (me: nat, system: System)
      requires Sound(system) && me < |system.procs|
      ensures Valid() && this.me == me && this.system == system
    {
      this.me, this.system, sequence := me, system, 0;
      failures, taken, collisions := 0, 0, 0;
    }

    /** Other processes run for a while. */
    method Others()
      requires Valid()
      modifies `system
      ensures Valid() && At() == old(At())
    {
      var events: seq<Event> := *;
      for i := 0 to |events|
        invariant Valid() && At() == old(At())
      {
        var e := events[i];
        if e.pid != me && e.pid < |system.procs| {
          StepKeepsSound(system, e);
          StepMovesOne(system, e, me);
          system := Step(system, e);
        }
      }
    }

    /** One system call of this process; `w` is the world it found. */
    method Call() returns (o: Outcome, ghost w: World)
      requires Valid() && !At().Idle?
      modifies this
      ensures Valid() && !o.Crash? && Staged(w.volume, old(At())) && Viewed(w, old(At()))
      ensures var m := Next(w, old(At()), Act(me, o, sequence));
              system.world == m.world && At() == m.pc
      ensures Counts(old(At()), o, w)
    {
      Others();
      var ok: bool, busy: bool := *, *;
      o := if ok then Ok else if busy then Busy else Fail;
      sequence := sequence + 1;
      w := system.world;
      ghost var inTheWay := InTheWay(At(), o, sequence, w);
      taken := taken + (if At().Creating? && inTheWay then 1 else 0);
      collisions := collisions + (if At().Moving? && inTheWay then 1 else 0);
      failures := failures + (if o.Fail? || (inTheWay && !At().Creating? && !At().Moving?) then 1 else 0);
      StepKeepsSound(system, Act(me, o, sequence));
      StepMovesOne(system, Act(me, o, sequence), me);
      system := Step(system, Act(me, o, sequence));
    }

    /** The call that just ended told the truth about the live path while it ran. */
    ghost predicate Told(r: Result)
      requires Valid()
      reads this
    {
      At().Idle? && r in system.world.results && Honest(system.world.history, r)
    }

    // ----- Saving

    /** Exclusively creates a private sibling, at most 32 names being tried. */
    method CreateTemporary(doc: Text, ghost since: nat) returns (owned: bool)
      requires Valid() && At() == Creating(doc, since, 0)
      modifies this
      ensures Valid() && Excused(owned || taken >= old(taken) + 32)
      ensures owned ==> At().Writing? && At().doc == doc && At().since == since && At().count == 0
      ensures !owned ==> Told(Saved(me, since, |system.world.history|, doc, false))
    {
      var attempt := 0;
      while attempt < CREATE_ATTEMPTS
        invariant Valid() && attempt <= CREATE_ATTEMPTS && Excused(true)
        invariant taken == old(taken) + attempt
        invariant attempt < CREATE_ATTEMPTS ==> At() == Creating(doc, since, attempt)
        invariant attempt == CREATE_ATTEMPTS ==>
          Told(Saved(me, since, |system.world.history|, doc, false))
      {
        var o, w := Call();
        if At().Writing? {
          return true;
        }
        if o.Fail? {
          return false;
        }
        attempt := attempt + 1;
      }
      return false;
    }

    /** Writes and flushes the whole document, or gives up. */
    method WriteDocument(doc: Text, ghost since: nat) returns (ok: bool)
      requires Valid() && At().Writing? && At().doc == doc && At().since == since && At().count == 0
      modifies this
      ensures Valid() && Excused(ok)
      ensures if ok then At().Moving? && At().doc == doc && At().since == since && At().attempt == 0
              else At().Removing? && At().doc == doc && At().since == since
    {
      var written := 0;
      while written <= |doc|
        invariant Valid() && written <= |doc| + 1 && Excused(true)
        invariant written <= |doc| ==> At().Writing? && At().count == written
        invariant written == |doc| + 1 ==> At().Flushing?
        invariant (At().Writing? || At().Flushing?) && At().doc == doc && At().since == since
      {
        var o, w := Call();
        if !o.Ok? {
          return false;
        }
        written := written + 1;
      }
      var o, w := Call();
      ok := o.Ok?;
    }

    /** Replaces the live file, retrying at most 64 collisions. */
    method MoveIntoPlace(doc: Text, ghost since: nat) returns (ok: bool)
      requires Valid() && At().Moving? && At().doc == doc && At().since == since && At().attempt == 0
      modifies this
      ensures Valid() && Excused(ok || collisions >= old(collisions) + 64)
      ensures if ok then Told(Saved(me, since, |system.world.history|, doc, true))
              else At().Removing? && At().doc == doc && At().since == since
    {
      var attempt := 0;
      while attempt < MOVE_ATTEMPTS
        invariant Valid() && attempt <= MOVE_ATTEMPTS && Excused(true)
        invariant collisions == old(collisions) + attempt
        invariant attempt < MOVE_ATTEMPTS ==>
          At().Moving? && At().doc == doc && At().since == since && At().attempt == attempt
        invariant attempt == MOVE_ATTEMPTS ==>
          At().Removing? && At().doc == doc && At().since == since
      {
        var o, w := Call();
        if o.Ok? {
          return true;
        }
        if o.Fail? {
          return false;
        }
        attempt := attempt + 1;
      }
      return false;
    }

    /** Gives the private file up. */
    method RemoveTemporary(doc: Text, ghost since: nat)
      requires Valid() && At().Removing? && At().doc == doc && At().since == since
      modifies this
      ensures Valid() && Excused(true)
      ensures Told(Saved(me, since, |system.world.history|, doc, false))
    {
      var o, w := Call();
    }

    method BeginSave(doc: Text) returns (ghost since: nat)
      requires Valid() && At().Idle?
      modifies this
      ensures Valid() && At() == Creating(doc, since, 0) && Excused(true)
      ensures since == |old(system.world.history)| - 1
    {
      since := |system.world.history| - 1;
      StepKeepsSound(system, Save(me, doc));
      StepMovesOne(system, Save(me, doc), me);
      system := Step(system, Save(me, doc));
    }

    /** Publishes the document. Success: this call put it in the live path once and changed
        nothing else. Failure: this call never changed the live path, and a system call of it
        failed, or 32 names were taken, or the rename collided 64 times. */
    method SaveFile(doc: Text) returns (ok: bool, ghost since: nat)
      requires Valid() && At().Idle?
      modifies this
      ensures Valid() && At().Idle? && since == |old(system.world.history)| - 1
      ensures Excused(ok || taken >= old(taken) + 32 || collisions >= old(collisions) + 64)
      ensures Told(Saved(me, since, |system.world.history|, doc, ok))
    {
      since := BeginSave(doc);
      var owned := CreateTemporary(doc, since);
      ok := false;
      if owned {
        ok := WriteDocument(doc, since);
        if ok {
          ok := MoveIntoPlace(doc, since);
        }
        if !ok {
          RemoveTemporary(doc, since);
        }
      }
    }

    // ----- Clearing and loading

    /** Makes the path absent. Success: it was absent at some moment of this call. */
    method ClearFile() returns (ok: bool, ghost since: nat)
      requires Valid() && At().Idle?
      modifies this
      ensures Valid() && since == |old(system.world.history)| - 1 && Excused(ok)
      ensures Told(Cleared(me, since, |system.world.history|, ok))
    {
      since := |system.world.history| - 1;
      StepKeepsSound(system, Clear(me));
      StepMovesOne(system, Clear(me), me);
      system := Step(system, Clear(me));
      var o, w := Call();
      ok := o.Ok?;
      if At().ClearDeleting? {
        o, w := Call();
      }
    }

    /** Reads the opened file to the size that was measured. */
    method ReadOpened(id: nat, size: nat, ghost since: nat) returns (answer: Answer)
      requires Valid() && At() == Reading(since, id, size)
      modifies this
      ensures Valid() && Told(Loaded(me, since, |system.world.history|, answer))
      ensures Excused(!answer.Failed?)
    {
      var o, w := Call();
      answer := if o.Ok? then Read(system.world.volume.files[id][..size]) else Failed;
    }

    /** An empty or oversized file counts as no policy. */
    method MeasureOpened(id: nat, ghost since: nat) returns (answer: Answer)
      requires Valid() && At() == Measuring(since, id)
      modifies this
      ensures Valid() && Told(Loaded(me, since, |system.world.history|, answer))
      ensures Excused(!answer.Failed?)
    {
      var o, w := Call();
      if !o.Ok? {
        return Failed;
      }
      var size := |system.world.volume.files[id]|;
      if size == 0 || size >= CAPACITY {
        return Unusable;
      }
      answer := ReadOpened(id, size, since);
    }

    /** Answers with what the path held at some moment of this call. */
    method LoadFile() returns (answer: Answer, ghost since: nat)
      requires Valid() && At().Idle?
      modifies this
      ensures Valid() && since == |old(system.world.history)| - 1 && Excused(!answer.Failed?)
      ensures Told(Loaded(me, since, |system.world.history|, answer))
    {
      since := |system.world.history| - 1;
      StepKeepsSound(system, Load(me));
      StepMovesOne(system, Load(me), me);
      system := Step(system, Load(me));
      var o, w := Call();
      if At().Measuring? {
        answer := MeasureOpened(At().id, since);
      } else {
        answer := if o.Ok? then Unusable else Failed;
      }
    }
  }
}
