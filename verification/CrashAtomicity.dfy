/** Crash atomicity of one location change: old pair or new pair, never a mixture. */
module CrashAtomicity {
  import opened Optional
  import opened Temporal
  import opened Disk
  import opened Protocol
  import opened Locks
  import opened PolicyHistory
  import opened Knowledge

  predicate OldPair(d: Disk, origin: Origin) {
    Effective(d).place == origin.place && d.metadata == origin.metadata
  }

  predicate NewPair(d: Disk, t: Task) {
    match TargetOf(t)
    case Some(m) => Matches(Effective(d).place, m) && d.metadata == Doc(m)
    case None => !Effective(d).place.configured && d.metadata.Missing?
  }

  /** The unlink of the metadata reported failure after it took effect, and the policy was
      then rolled back: the one way in which a clear loses the old metadata. */
  predicate LostRecord(origin: Origin) {
    origin.vanished && origin.restored
  }

  predicate Resolved(w: World, t: Task) {
    (OldPair(Recovered(w.disk), w.origin) || NewPair(Recovered(w.disk), t))
      <==> !LostRecord(w.origin)
  }

  // ----- What each point of a location change guarantees

  predicate Untouched(w: World, t: Task) {
    && OldPair(w.disk, w.origin) && !w.origin.vanished
    && (|| w.disk.journal.Missing?
        || (TargetOf(t).Some? && w.disk.journal == Doc(TargetOf(t).value)))
  }

  /** The policy is published; the metadata is still the old one, or gone. */
  predicate Between(w: World, t: Task, base: Base) {
    && base.policy.place == w.origin.place && !w.origin.restored
    && match TargetOf(t)
       case Some(m) =>
         && w.disk.metadata == w.origin.metadata && !w.origin.vanished
         && w.disk.journal == Doc(m) && JournalMatches(w.disk)
       case None =>
         && w.disk.journal.Missing? && !Effective(w.disk).place.configured
         && w.disk.metadata == (if w.origin.vanished then Missing else w.origin.metadata)
         && (w.origin.vanished ==> !w.origin.metadata.Missing?)
  }

  predicate Changing(pc: Pc) {
    HoldsLocality(pc) && !Recovering(pc) && PairWriter(pc.task)
  }

  predicate Traces(w: World, pc: Pc)
    requires Changing(pc)
  {
    && Paired(w.origin.place, w.origin.metadata)
    && (TargetOf(pc.task).Some? ==> !w.origin.vanished)
    && if pc.Unlock? then Resolved(w, pc.task)
       else if pc.Discard? then Untouched(w, pc.task)
       else if pc.DropJournal? then
         NewPair(w.disk, pc.task) && w.disk.journal == w.disk.metadata
       else if Midway(pc) then
         && Between(w, pc.task, pc.base)
         && (pc.Publish? ==> !w.origin.vanished)
         && (pc.WriteMeta? ==> TargetOf(pc.task) == Some(pc.record))
       else
         && Untouched(w, pc.task) && !w.origin.restored
         && (StagedOnly(pc) ==> w.disk.journal == Doc(TargetOf(pc.task).value))
  }

  lemma TracesResolve(w: World, pc: Pc)
    requires Shape(pc) && Changing(pc) && Traces(w, pc)
    ensures Resolved(w, pc.task)
  {
  }

  // ----- One process's move

  predicate Traced(m: Move) {
    Changing(m.pc) ==> Traces(m.world, m.pc)
  }

  lemma SaveTraces(w: World, o: Outcome, t: Task, base: Base)
    requires Shape(Save(t, base)) && PairWriter(t) && base == Loaded(w.disk)
    requires Traces(w, Save(t, base))
    ensures Traced(DoSave(w, o, t, base))
  {
    LastMoveWins(EditsOf(t), base.policy);
    if TargetOf(t).Some? {
      StoredMatches(TargetOf(t).value);
    }
  }

  lemma PublishTraces(w: World, o: Outcome, t: Task, base: Base)
    requires Shape(Publish(t, base)) && Traces(w, Publish(t, base))
    ensures Traced(DoPublish(w, o, t, base))
  {
  }

  lemma RollbackTraces(w: World, o: Outcome, t: Task, base: Base)
    requires Shape(Rollback(t, base)) && Traces(w, Rollback(t, base))
    requires MayUndo(w, t, base)
    ensures Traced(DoRollback(w, o, t, base))
  {
  }

  lemma WriteMetaTraces(w: World, o: Outcome, t: Task, base: Base, record: Metadata)
    requires Shape(WriteMeta(t, base, record)) && Traces(w, WriteMeta(t, base, record))
    ensures Traced(DoWriteMeta(w, o, t, base, record))
  {
  }

  lemma CleanupTraces(w: World, pid: nat, pc: Pc, o: Outcome)
    requires Owns(w, pc, pid) && Changing(pc) && Traces(w, pc)
    requires pc.DropJournal? || pc.Discard? || pc.Unlock?
    ensures Traced(Advance(w, pid, pc, o))
  {
  }

  lemma ApproachTraces(w: World, pid: nat, pc: Pc, o: Outcome)
    requires Owns(w, pc, pid) && Changing(pc) && Traces(w, pc)
    requires pc.Inspect? || pc.Stage? || pc.WantPolicy? || pc.Load?
    ensures Traced(Advance(w, pid, pc, o))
  {
  }

  lemma MidwayTraces(w: World, pid: nat, pc: Pc, o: Outcome)
    requires Owns(w, pc, pid) && Changing(pc) && Traces(w, pc) && Midway(pc)
    requires HolderKnows(w, pc)
    ensures Traced(Advance(w, pid, pc, o))
  {
    if pc.Publish? {
      PublishTraces(w, o, pc.task, pc.base);
    } else if pc.WriteMeta? {
      WriteMetaTraces(w, o, pc.task, pc.base, pc.record);
    } else {
      RollbackTraces(w, o, pc.task, pc.base);
    }
  }

  lemma HolderTraces(w: World, pid: nat, pc: Pc, o: Outcome)
    requires Owns(w, pc, pid) && Changing(pc) && Traces(w, pc)
    requires HolderKnows(w, pc)
    ensures Traced(Advance(w, pid, pc, o))
  {
    if Midway(pc) {
      MidwayTraces(w, pid, pc, o);
    } else if pc.Save? {
      SaveTraces(w, o, pc.task, pc.base);
    } else if pc.DropJournal? || pc.Discard? || pc.Unlock? {
      CleanupTraces(w, pid, pc, o);
    } else {
      ApproachTraces(w, pid, pc, o);
    }
  }

  lemma HolderOfOtherTask(w: World, pid: nat, pc: Pc, o: Outcome)
    requires Owns(w, pc, pid) && HoldsLocality(pc) && !Changing(pc)
    ensures !Changing(Advance(w, pid, pc, o).pc)
  {
  }

  /** Taking the locality lock records the pair found then. */
  lemma EntryTraces(w: World, pid: nat, pc: Pc, o: Outcome)
    requires Owns(w, pc, pid) && !HoldsLocality(pc)
    ensures
      var m := Advance(w, pid, pc, o);
      && (HoldsLocality(m.pc) ==> m.world.origin == Snapshot(w.disk))
      && (!HoldsLocality(m.pc) ==> m.world.origin == w.origin)
  {
  }

  lemma SamePairKeepsTraces(w: World, w': World, pc: Pc)
    requires Changing(pc) && SamePair(w, w') && w'.origin == w.origin && Traces(w, pc)
    ensures Traces(w', pc)
  {
  }

  // ----- Whole runs

  predicate AllTraced(s: System) {
    && Informed(s)
    && (s.world.origin.clean ==>
          forall pc <- s.procs :: Changing(pc) ==> Traces(s.world, pc))
  }

  lemma StepTraces(s: System, e: Event)
    requires AllTraced(s)
    ensures AllTraced(Step(s, e))
  {
    StepKeepsInformed(s, e);
    if e.pid < |s.procs| {
      var pc := s.procs[e.pid];
      assert Owns(s.world, pc, e.pid) && pc in s.procs;
      if HoldsLocality(pc) {
        HolderStepTraces(s, e);
      } else {
        OutsiderStepTraces(s, e);
      }
    }
  }

  lemma HolderStepTraces(s: System, e: Event)
    requires AllTraced(s) && e.pid < |s.procs| && HoldsLocality(s.procs[e.pid])
    requires Informed(Step(s, e))
    ensures AllTraced(Step(s, e))
  {
    var w, pc := s.world, s.procs[e.pid];
    assert Owns(w, pc, e.pid) && pc in s.procs;
    var m := Next(w, pc, e);
    OriginKept(w, pc, e);
    if m.world.origin.clean && e.Act? && !e.outcome.Crash? {
      if Changing(pc) {
        HolderTraces(w, e.pid, pc, e.outcome);
      } else {
        HolderOfOtherTask(w, e.pid, pc, e.outcome);
      }
    }
    forall i: nat | i < |s.procs| && i != e.pid ensures !HoldsLocality(s.procs[i]) {
      OthersAreOutside(s, e.pid, i);
    }
  }

  lemma OriginKept(w: World, pc: Pc, e: Event)
    requires HoldsLocality(pc)
    ensures Next(w, pc, e).world.origin.clean == w.origin.clean
  {
  }

  lemma OutsiderStepTraces(s: System, e: Event)
    requires AllTraced(s) && e.pid < |s.procs| && !HoldsLocality(s.procs[e.pid])
    requires Informed(Step(s, e))
    ensures AllTraced(Step(s, e))
  {
    var w, pc := s.world, s.procs[e.pid];
    assert Owns(w, pc, e.pid) && pc in s.procs;
    var m := Next(w, pc, e);
    OutsiderKeepsPair(w, pc, e);
    NextMoves(w, pc, e);
    if e.Act? && !e.outcome.Crash? {
      EntryTraces(w, e.pid, pc, e.outcome);
    }
    if m.world.origin.clean {
      forall i: nat | i < |s.procs| && i != e.pid && Changing(s.procs[i])
        ensures Traces(m.world, s.procs[i])
      {
        assert Owns(w, s.procs[i], i) && s.procs[i] in s.procs;
        SamePairKeepsTraces(w, m.world, s.procs[i]);
      }
    }
  }

  lemma {:induction false} RunTraces(s: System, events: seq<Event>)
    requires AllTraced(s)
    ensures AllTraced(Run(s, events))
  {
    if events != [] {
      RunTraces(s, events[..|events| - 1]);
      StepTraces(Run(s, events[..|events| - 1]), events[|events| - 1]);
    }
  }

  /** In every run, if a location change began on a coherent disk with no journal, then a
      crash at any point of it, rollback included, leaves a disk from which recovery makes
      the old pair or the new pair. The only exception is stated exactly: a clear whose
      unlink failed after removing the record and whose policy was then restored. */
  lemma CrashLeavesOldOrNew(s: System, events: seq<Event>, pid: nat)
    requires Initial(s) && pid < |Run(s, events).procs|
    requires
      var now := Run(s, events);
      Changing(now.procs[pid]) && now.world.origin.clean
    ensures
      var now := Run(s, events);
      var disk := Recovered(Step(now, Act(pid, Crash)).world.disk);
      var t := now.procs[pid].task;
      && ((OldPair(disk, now.world.origin) || NewPair(disk, t)) <==> !LostRecord(now.world.origin))
      && (TargetOf(t).Some? ==> !LostRecord(now.world.origin))
  {
    InitialIsInformed(s);
    RunTraces(s, events);
    var now := Run(s, events);
    assert Owns(now.world, now.procs[pid], pid) && now.procs[pid] in now.procs;
    TracesResolve(now.world, now.procs[pid]);
  }
}
