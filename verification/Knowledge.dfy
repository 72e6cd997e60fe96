/** What the holder of the locality lock has learned about the disk stays true while it
    holds the lock, although the other processes keep publishing policy fields. */
module Knowledge {
  import opened Optional
  import opened Temporal
  import opened Disk
  import opened Protocol
  import opened Locks
  import opened PolicyHistory

  /** What the locality holder learned about the disk and what its next write relies on. */
  predicate Knows(w: World, pc: Pc) {
    match pc
    case WantPolicy(t) => ZoneKnows(w, t)
    case Load(t) => ZoneKnows(w, t)
    case Save(t, _) => ZoneKnows(w, t)
    case SurveyMeta(_, seen) => seen == Effective(w.disk).place
    case SaveZone(_, _, record) => Matches(Effective(w.disk).place, record)
    case RecoverJournal(seen) => seen == Effective(w.disk).place
    case RecoverRead => JournalMatches(w.disk)
    case RecoverWrite(record) => JournalMatches(w.disk) && w.disk.journal == Doc(record)
    case RecoverDrop => JournalMatches(w.disk) && w.disk.metadata == w.disk.journal
    case RecoverDiscard(seen) =>
      seen == Effective(w.disk).place && !w.disk.journal.Missing? && !JournalMatches(w.disk)
    case RecoverClear => !Effective(w.disk).place.configured && w.disk.journal.Missing?
    case _ => true
  }

  predicate ZoneKnows(w: World, t: Task) {
    t.FollowZone? ==> !Effective(w.disk).place.configured
  }

  /** Between a published policy and the fate of the metadata that belongs to it. */
  predicate Midway(pc: Pc) {
    pc.Publish? || pc.WriteMeta? || pc.Rollback?
  }

  /** The journal holds this process's record and the policy is not yet published. */
  predicate StagedOnly(pc: Pc) {
    || ((pc.WantPolicy? || pc.Load?) && pc.task.SelectPlace?)
    || (pc.Save? && PairWriter(pc.task) && TargetOf(pc.task).Some?)
  }

  /** Nothing the locality holder relies on has changed. */
  predicate SamePair(w: World, w': World) {
    && Effective(w'.disk).place == Effective(w.disk).place
    && w'.disk.metadata == w.disk.metadata && w'.disk.journal == w.disk.journal
    && w'.pending == w.pending
  }

  predicate Entering(pc: Pc) {
    pc.Inspect? || pc.Survey? || pc.RecoverPolicy? || (pc.WantPolicy? && (pc.task.Batch? || pc.task.Reject?))
  }

  lemma OutsidersWriteNothing(w: World, pid: nat, pc: Pc, o: Outcome)
    requires Owns(w, pc, pid) && !HoldsLocality(pc)
    ensures
      var m := Advance(w, pid, pc, o);
      && m.world.disk.metadata == w.disk.metadata && m.world.disk.journal == w.disk.journal
      && m.world.pending == w.pending
      && (HoldsLocality(m.pc) ==> Entering(m.pc))
  {
  }

  lemma OutsiderKeepsPair(w: World, pc: Pc, e: Event)
    requires Owns(w, pc, e.pid) && !HoldsLocality(pc)
    requires HistoryAgrees(w) && HolderKnows(w, pc)
    ensures
      var m := Next(w, pc, e);
      SamePair(w, m.world) && (HoldsLocality(m.pc) ==> Entering(m.pc))
  {
    PlaceKept(w, pc, e);
    if e.Act? && !e.outcome.Crash? {
      OutsidersWriteNothing(w, e.pid, pc, e.outcome);
    }
  }

  lemma SamePairKeepsKnows(w: World, w': World, pc: Pc)
    requires SamePair(w, w') && Knows(w, pc)
    ensures Knows(w', pc)
  {
  }

  lemma RecoveryLearns(w: World, pid: nat, pc: Pc, o: Outcome)
    requires Owns(w, pc, pid) && Recovering(pc) && Knows(w, pc)
    ensures
      var m := Advance(w, pid, pc, o);
      HoldsLocality(m.pc) ==> Knows(m.world, m.pc)
  {
  }

  lemma WriterLearns(w: World, pid: nat, pc: Pc, o: Outcome)
    requires Owns(w, pc, pid) && HoldsLocality(pc) && !Recovering(pc) && Knows(w, pc)
    ensures
      var m := Advance(w, pid, pc, o);
      HoldsLocality(m.pc) ==> Knows(m.world, m.pc)
  {
  }

  lemma HolderLearns(w: World, pc: Pc, e: Event)
    requires Owns(w, pc, e.pid) && HoldsLocality(pc) && Knows(w, pc)
    ensures
      var m := Next(w, pc, e);
      HoldsLocality(m.pc) ==> Knows(m.world, m.pc)
  {
    if e.Act? && !e.outcome.Crash? {
      if Recovering(pc) {
        RecoveryLearns(w, e.pid, pc, e.outcome);
      } else {
        WriterLearns(w, e.pid, pc, e.outcome);
      }
    }
  }

  predicate Informed(s: System) {
    && HistoryKept(s)
    && (forall pc <- s.procs :: HoldsLocality(pc) ==> Knows(s.world, pc))
  }

  /** While one process holds the locality lock, no other does. */
  lemma OthersAreOutside(s: System, pid: nat, i: nat)
    requires LocksAgree(s) && pid < |s.procs| && i < |s.procs| && i != pid
    requires HoldsLocality(s.procs[pid])
    ensures !HoldsLocality(s.procs[i])
  {
    assert Owns(s.world, s.procs[pid], pid) && Owns(s.world, s.procs[i], i);
  }

  lemma StepKeepsInformed(s: System, e: Event)
    requires Informed(s)
    ensures Informed(Step(s, e))
  {
    StepKeepsHistory(s, e);
    if e.pid < |s.procs| {
      var w, pc := s.world, s.procs[e.pid];
      var m := Next(w, pc, e);
      assert Owns(w, pc, e.pid) && pc in s.procs;
      if HoldsLocality(pc) {
        HolderLearns(w, pc, e);
        forall i: nat | i < |s.procs| && i != e.pid ensures !HoldsLocality(s.procs[i]) {
          OthersAreOutside(s, e.pid, i);
        }
      } else {
        OutsiderKeepsPair(w, pc, e);
        forall i: nat | i < |s.procs| && i != e.pid && HoldsLocality(s.procs[i])
          ensures Knows(m.world, s.procs[i])
        {
          assert s.procs[i] in s.procs;
          SamePairKeepsKnows(w, m.world, s.procs[i]);
        }
      }
    }
  }

  lemma {:induction false} RunKeepsInformed(s: System, events: seq<Event>)
    requires Informed(s)
    ensures Informed(Run(s, events))
  {
    if events != [] {
      RunKeepsInformed(s, events[..|events| - 1]);
      StepKeepsInformed(Run(s, events[..|events| - 1]), events[|events| - 1]);
    }
  }

  lemma InitialIsInformed(s: System)
    requires Initial(s)
    ensures Informed(s)
  {
    InitialAgrees(s);
  }

  /** Reconciliation with the time zone moves the location only when it is unconfigured at
      that very moment, so a chosen place is never replaced by a reference coordinate. */
  lemma ReferenceYieldsToChoice(s: System, events: seq<Event>, e: Event)
    requires Initial(s)
    requires
      var now := Run(s, events);
      && e.pid < |now.procs| && !now.procs[e.pid].Idle? && !Recovering(now.procs[e.pid])
      && now.procs[e.pid].task.FollowZone?
      && Effective(Step(now, e).world.disk).place != Effective(now.world.disk).place
    ensures !Effective(Run(s, events).world.disk).place.configured
  {
    var now := Run(s, events);
    var pc := now.procs[e.pid];
    InitialIsInformed(s);
    RunKeepsInformed(s, events);
    assert Owns(now.world, pc, e.pid) && pc in now.procs;
    if !pc.Save? && e.Act? && !e.outcome.Crash? {
      LogKept(now.world, e.pid, pc, e.outcome);
    }
  }
}
