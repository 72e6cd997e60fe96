/** Whole-run safety of the policy location and the locality metadata.

    The claim needs one hypothesis: after a crash or a failed rollback, a recovery succeeds
    before the next location change. `Counterexamples` shows what goes wrong without it. */
module PairSafety {
  import opened Optional
  import opened Temporal
  import opened Disk
  import opened Protocol
  import opened Locks
  import opened PolicyHistory
  import opened Knowledge

  /** A location change is made durable only when nothing waits for recovery. */
  predicate RecoversFirst(w: World, pc: Pc, e: Event) {
    (e.Act? && Saved(e.outcome) && (pc.Stage? || (pc.Save? && NeedsLocality(pc.task)))) ==>
      !w.pending
  }

  predicate Guarded(s: System, events: seq<Event>) {
    events != [] ==>
      var before := Run(s, events[..|events| - 1]);
      var e := events[|events| - 1];
      && Guarded(s, events[..|events| - 1])
      && (e.pid < |before.procs| ==> RecoversFirst(before.world, before.procs[e.pid], e))
  }

  /** The journal or the cleared flag tells recovery which way the new policy points, and
      the metadata still belongs to the policy that was replaced. */
  predicate HalfDone(w: World, t: Task, base: Base) {
    && Paired(base.policy.place, w.disk.metadata)
    && if TargetOf(t).Some? then
         w.disk.journal == Doc(TargetOf(t).value) && JournalMatches(w.disk)
       else !Effective(w.disk).place.configured
  }

  predicate Sound(w: World, pc: Pc) {
    if Midway(pc) then
      && !w.pending && HalfDone(w, pc.task, pc.base)
      && (pc.WriteMeta? ==> Some(pc.record) == TargetOf(pc.task))
    else
      && ((w.pending && !pc.DropJournal? && !pc.Discard?) || Coherent(w.disk))
      && (StagedOnly(pc) ==> !w.pending && w.disk.journal == Doc(TargetOf(pc.task).value))
  }

  // ----- What each move of the holder leaves behind

  predicate Good(m: Move) {
    && Recoverable(m.world.disk)
    && (HoldsLocality(m.pc) ==> Sound(m.world, m.pc))
    && (!HoldsLocality(m.pc) ==> m.world.pending || Coherent(m.world.disk))
  }

  lemma SaveIsGood(w: World, o: Outcome, t: Task, base: Base)
    requires Shape(Save(t, base)) && NeedsLocality(t) && base == Loaded(w.disk)
    requires Recoverable(w.disk) && Knows(w, Save(t, base)) && Sound(w, Save(t, base))
    requires Saved(o) ==> !w.pending
    ensures Good(DoSave(w, o, t, base))
  {
    if Saved(o) {
      LastMoveWins(EditsOf(t), base.policy);
      if TargetOf(t).Some? {
        StoredMatches(TargetOf(t).value);
      }
    }
  }

  lemma StageIsGood(w: World, o: Outcome, t: Task, early: Option<Base>)
    requires Shape(Stage(t, early))
    requires Recoverable(w.disk) && Sound(w, Stage(t, early))
    requires o.Ok? ==> !w.pending
    ensures Good(DoStage(w, o, t, early))
  {
  }

  lemma PublishIsGood(w: World, o: Outcome, t: Task, base: Base)
    requires Shape(Publish(t, base)) && Recoverable(w.disk) && Sound(w, Publish(t, base))
    ensures Good(DoPublish(w, o, t, base))
  {
  }

  lemma WriteMetaIsGood(w: World, o: Outcome, t: Task, base: Base, record: Metadata)
    requires Shape(WriteMeta(t, base, record))
    requires Recoverable(w.disk) && Sound(w, WriteMeta(t, base, record))
    ensures Good(DoWriteMeta(w, o, t, base, record))
  {
  }

  lemma RollbackIsGood(w: World, o: Outcome, t: Task, base: Base)
    requires Shape(Rollback(t, base)) && Recoverable(w.disk) && Sound(w, Rollback(t, base))
    requires MayUndo(w, t, base)
    ensures Good(DoRollback(w, o, t, base))
  {
  }

  lemma CleanupIsGood(w: World, pid: nat, pc: Pc, o: Outcome)
    requires Owns(w, pc, pid) && HoldsLocality(pc)
    requires pc.DropJournal? || pc.Discard? || pc.Unlock?
    requires Recoverable(w.disk) && Sound(w, pc)
    ensures Good(Advance(w, pid, pc, o))
  {
  }

  /** The first steps of a writer, which only read. */
  lemma ApproachIsGood(w: World, pid: nat, pc: Pc, o: Outcome)
    requires Owns(w, pc, pid) && HoldsLocality(pc)
    requires pc.Inspect? || pc.WantPolicy? || pc.Load? || pc.Survey?
    requires Recoverable(w.disk) && Knows(w, pc) && Sound(w, pc)
    ensures Good(Advance(w, pid, pc, o))
  {
  }

  lemma ZoneIsGood(w: World, pid: nat, pc: Pc, o: Outcome)
    requires Owns(w, pc, pid) && (pc.SurveyMeta? || pc.SaveZone?)
    requires Recoverable(w.disk) && Knows(w, pc) && Sound(w, pc)
    ensures Good(Advance(w, pid, pc, o))
  {
  }

  lemma RecoveryIsGood(w: World, pid: nat, pc: Pc, o: Outcome)
    requires Owns(w, pc, pid) && Recovering(pc)
    requires Recoverable(w.disk) && Knows(w, pc) && Sound(w, pc)
    ensures Good(Advance(w, pid, pc, o))
  {
  }

  lemma HolderIsGood(w: World, pid: nat, pc: Pc, o: Outcome)
    requires Owns(w, pc, pid) && HoldsLocality(pc) && HolderKnows(w, pc)
    requires Recoverable(w.disk) && Knows(w, pc) && Sound(w, pc)
    requires RecoversFirst(w, pc, Act(pid, o))
    ensures Good(Advance(w, pid, pc, o))
  {
    if Recovering(pc) {
      RecoveryIsGood(w, pid, pc, o);
    } else if pc.SurveyMeta? || pc.SaveZone? {
      ZoneIsGood(w, pid, pc, o);
    } else if pc.Inspect? || pc.WantPolicy? || pc.Load? || pc.Survey? {
      ApproachIsGood(w, pid, pc, o);
    } else if pc.DropJournal? || pc.Discard? || pc.Unlock? {
      CleanupIsGood(w, pid, pc, o);
    } else {
      WriterIsGood(w, pid, pc, o);
    }
  }

  lemma WriterIsGood(w: World, pid: nat, pc: Pc, o: Outcome)
    requires Owns(w, pc, pid) && HoldsLocality(pc) && HolderKnows(w, pc)
    requires pc.Stage? || pc.Save? || Midway(pc)
    requires Recoverable(w.disk) && Knows(w, pc) && Sound(w, pc)
    requires RecoversFirst(w, pc, Act(pid, o))
    ensures Good(Advance(w, pid, pc, o))
  {
    match pc {
      case Stage(t, early) => StageIsGood(w, o, t, early);
      case Save(t, base) => SaveIsGood(w, o, t, base);
      case Publish(t, base) => PublishIsGood(w, o, t, base);
      case WriteMeta(t, base, record) => WriteMetaIsGood(w, o, t, base, record);
      case Rollback(t, base) => RollbackIsGood(w, o, t, base);
    }
  }

  // ----- Whole runs

  predicate Safe(s: System) {
    && Informed(s)
    && Recoverable(s.world.disk)
    && (s.world.localityOwner.None? ==> s.world.pending || Coherent(s.world.disk))
    && (forall pc <- s.procs :: HoldsLocality(pc) ==> Sound(s.world, pc))
  }

  lemma CrashIsGood(w: World, pc: Pc)
    requires Recoverable(w.disk) && HoldsLocality(pc)
    ensures Good(Die(w, pc))
  {
  }

  lemma OutsiderIsGood(w: World, pc: Pc, e: Event)
    requires Owns(w, pc, e.pid) && !HoldsLocality(pc)
    requires HistoryAgrees(w) && HolderKnows(w, pc)
    requires Recoverable(w.disk) && (w.localityOwner.None? ==> w.pending || Coherent(w.disk))
    ensures
      var m := Next(w, pc, e);
      SamePair(w, m.world) && (HoldsLocality(m.pc) ==> Sound(m.world, m.pc))
  {
    OutsiderKeepsPair(w, pc, e);
    NextMoves(w, pc, e);
  }

  lemma SamePairKeepsSound(w: World, w': World, pc: Pc)
    requires SamePair(w, w') && Sound(w, pc)
    ensures Sound(w', pc)
  {
  }

  lemma StepIsSafe(s: System, e: Event)
    requires Safe(s)
    requires e.pid < |s.procs| ==> RecoversFirst(s.world, s.procs[e.pid], e)
    ensures Safe(Step(s, e))
  {
    StepKeepsInformed(s, e);
    if e.pid < |s.procs| {
      var w, pc := s.world, s.procs[e.pid];
      assert Owns(w, pc, e.pid) && pc in s.procs;
      NextMoves(w, pc, e);
      if HoldsLocality(pc) {
        HolderStepIsSafe(s, e);
      } else {
        OutsiderIsGood(w, pc, e);
        OutsiderStepIsSafe(s, e);
      }
    }
  }

  lemma HolderStepIsSafe(s: System, e: Event)
    requires Safe(s) && e.pid < |s.procs| && HoldsLocality(s.procs[e.pid])
    requires RecoversFirst(s.world, s.procs[e.pid], e)
    requires Informed(Step(s, e))
    ensures Safe(Step(s, e))
  {
    var w, pc := s.world, s.procs[e.pid];
    assert Owns(w, pc, e.pid) && pc in s.procs;
    if e.Act? {
      if e.outcome.Crash? {
        CrashIsGood(w, pc);
      } else {
        HolderIsGood(w, e.pid, pc, e.outcome);
      }
      var m := Next(w, pc, e);
      assert Good(m);
      NextMoves(w, pc, e);
      forall i: nat | i < |s.procs| && i != e.pid ensures !HoldsLocality(s.procs[i]) {
        assert Owns(w, s.procs[i], i);
      }
    }
  }

  lemma OutsiderStepIsSafe(s: System, e: Event)
    requires Safe(s) && e.pid < |s.procs| && !HoldsLocality(s.procs[e.pid])
    requires Informed(Step(s, e))
    requires
      var m := Next(s.world, s.procs[e.pid], e);
      SamePair(s.world, m.world) && (HoldsLocality(m.pc) ==> Sound(m.world, m.pc))
    ensures Safe(Step(s, e))
  {
    var w, pc := s.world, s.procs[e.pid];
    var m := Next(w, pc, e);
    assert Owns(w, pc, e.pid);
    NextMoves(w, pc, e);
    forall i: nat | i < |s.procs| && i != e.pid && HoldsLocality(s.procs[i])
      ensures Sound(m.world, s.procs[i])
    {
      assert s.procs[i] in s.procs;
      SamePairKeepsSound(w, m.world, s.procs[i]);
    }
  }

  lemma {:induction false} RunIsSafe(s: System, events: seq<Event>)
    requires Safe(s) && Guarded(s, events)
    ensures Safe(Run(s, events))
  {
    if events != [] {
      RunIsSafe(s, events[..|events| - 1]);
      StepIsSafe(Run(s, events[..|events| - 1]), events[|events| - 1]);
    }
  }

  /** With any number of interleaved processes, failures and crashes, recovery from the
      current disk always makes the pair coherent, in the middle of a transaction too; and
      whenever the locality lock is free and nothing is pending, it is coherent already. */
  lemma WholeRunSafety(s: System, events: seq<Event>)
    requires Initial(s) && Coherent(s.world.disk) && Guarded(s, events)
    ensures
      var w := Run(s, events).world;
      && Coherent(Recovered(w.disk))
      && Effective(Recovered(w.disk)).place == Effective(w.disk).place
      && (w.localityOwner.None? && !w.pending ==> Coherent(w.disk))
  {
    InitialAgrees(s);
    RunIsSafe(s, events);
    RecoveredIsCoherent(Run(s, events).world.disk);
  }
}
