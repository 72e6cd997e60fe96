/** Exactly which steps put a locality pair beyond recovery, in every reachable state and
    without any hypothesis about recovery. */
module Breakage {
  import opened Optional
  import opened Temporal
  import opened Disk
  import opened Protocol
  import opened Locks
  import opened PolicyHistory
  import opened Knowledge
  import opened PairSafety

  /** The pair stands only through its journal. */
  predicate NeedsJournal(d: Disk) {
    Effective(d).place.configured && !Coherent(d)
  }

  /** Under this location neither the metadata nor the journal would make a pair. */
  predicate Strands(l: Location, d: Disk) {
    l.configured && !Paired(l, d.metadata) && !(d.journal.Doc? && Matches(l, d.journal.value))
  }

  /** The steps that break a recoverable pair, each with the guard that its process could
      evaluate before taking it:
      staging over a journal that the pair needs and that the new record does not replace;
      discarding a journal that the pair needs;
      rolling back to, or publishing as a reference, a location that is left stranded. */
  predicate Breaks(w: World, pc: Pc, e: Event) {
    && e.Act? && !e.outcome.Crash?
    && (|| (pc.Stage? && e.outcome.Ok? && TargetOf(pc.task).Some?
            && ValidRecord(TargetOf(pc.task).value) && NeedsJournal(w.disk)
            && !Matches(Effective(w.disk).place, TargetOf(pc.task).value))
        || (pc.Discard? && !(pc.task.SelectPlace? && pc.locked)
            && (e.outcome.Ok? || e.outcome.FailGone?) && NeedsJournal(w.disk))
        || (pc.Rollback? && Undone(e.outcome, pc.base) && Strands(pc.base.policy.place, w.disk))
        || (pc.Save? && pc.task.FollowZone? && pc.task.reference.Some? && Saved(e.outcome)
            && Strands(StoredPlace(pc.task.reference.value.(configured := true)), w.disk)))
  }

  /** What the locality holder carries from one step to the next. */
  predicate Carries(w: World, pc: Pc) {
    && (StagedOnly(pc) ==> w.disk.journal == Doc(TargetOf(pc.task).value))
    && (Midway(pc) ==>
          && (TargetOf(pc.task).Some? ==>
                w.disk.journal == Doc(TargetOf(pc.task).value) && JournalMatches(w.disk))
          && (TargetOf(pc.task).None? ==> !Effective(w.disk).place.configured)
          && (pc.WriteMeta? ==> Some(pc.record) == TargetOf(pc.task)))
    && (pc.DropJournal? ==> Coherent(w.disk))
  }

  /** The step breaks the pair exactly when `Breaks` says so, and keeps what is carried. */
  predicate Judged(w: World, m: Move, breaks: bool) {
    && (Recoverable(w.disk) ==> (Recoverable(m.world.disk) <==> !breaks))
    && (HoldsLocality(m.pc) ==> Carries(m.world, m.pc))
  }

  lemma StageJudged(w: World, pid: nat, pc: Pc, o: Outcome)
    requires Owns(w, pc, pid) && pc.Stage? && !o.Crash?
    ensures Judged(w, Advance(w, pid, pc, o), Breaks(w, pc, Act(pid, o)))
  {
  }

  lemma SaveJudged(w: World, pid: nat, pc: Pc, o: Outcome)
    requires Owns(w, pc, pid) && pc.Save? && NeedsLocality(pc.task) && !o.Crash?
    requires pc.base == Loaded(w.disk) && Carries(w, pc)
    ensures Judged(w, Advance(w, pid, pc, o), Breaks(w, pc, Act(pid, o)))
  {
    if Saved(o) {
      LastMoveWins(EditsOf(pc.task), pc.base.policy);
      if TargetOf(pc.task).Some? {
        StoredMatches(TargetOf(pc.task).value);
      }
    }
  }

  lemma RollbackJudged(w: World, pid: nat, pc: Pc, o: Outcome)
    requires Owns(w, pc, pid) && pc.Rollback? && !o.Crash?
    requires MayUndo(w, pc.task, pc.base) && Carries(w, pc)
    ensures Judged(w, Advance(w, pid, pc, o), Breaks(w, pc, Act(pid, o)))
  {
  }

  lemma CommitJudged(w: World, pid: nat, pc: Pc, o: Outcome)
    requires Owns(w, pc, pid) && (pc.Publish? || pc.WriteMeta?) && !o.Crash?
    requires Carries(w, pc)
    ensures Judged(w, Advance(w, pid, pc, o), false)
  {
  }

  lemma CleanupJudged(w: World, pid: nat, pc: Pc, o: Outcome)
    requires Owns(w, pc, pid) && HoldsLocality(pc) && !o.Crash?
    requires pc.DropJournal? || pc.Discard? || pc.Unlock?
    requires Carries(w, pc)
    ensures Judged(w, Advance(w, pid, pc, o), Breaks(w, pc, Act(pid, o)))
  {
  }

  lemma ReadingJudged(w: World, pid: nat, pc: Pc, o: Outcome)
    requires Owns(w, pc, pid) && HoldsLocality(pc) && !o.Crash?
    requires pc.Inspect? || pc.WantPolicy? || pc.Load? || pc.Survey?
    requires Carries(w, pc)
    ensures Judged(w, Advance(w, pid, pc, o), false)
  {
  }

  lemma ZoneJudged(w: World, pid: nat, pc: Pc, o: Outcome)
    requires Owns(w, pc, pid) && (pc.SurveyMeta? || pc.SaveZone?) && !o.Crash?
    requires Knows(w, pc)
    ensures Judged(w, Advance(w, pid, pc, o), false)
  {
  }

  lemma RecoveryJudged(w: World, pid: nat, pc: Pc, o: Outcome)
    requires Owns(w, pc, pid) && Recovering(pc) && !o.Crash?
    requires Knows(w, pc)
    ensures Judged(w, Advance(w, pid, pc, o), false)
  {
  }

  lemma HolderJudged(w: World, pid: nat, pc: Pc, o: Outcome)
    requires Owns(w, pc, pid) && HoldsLocality(pc) && !o.Crash?
    requires HolderKnows(w, pc) && Knows(w, pc) && Carries(w, pc)
    ensures Judged(w, Advance(w, pid, pc, o), Breaks(w, pc, Act(pid, o)))
  {
    if pc.Stage? {
      StageJudged(w, pid, pc, o);
    } else if pc.Save? {
      SaveJudged(w, pid, pc, o);
    } else if pc.Rollback? {
      RollbackJudged(w, pid, pc, o);
    } else if pc.Publish? || pc.WriteMeta? {
      CommitJudged(w, pid, pc, o);
    } else if pc.DropJournal? || pc.Discard? || pc.Unlock? {
      CleanupJudged(w, pid, pc, o);
    } else if pc.SurveyMeta? || pc.SaveZone? {
      ZoneJudged(w, pid, pc, o);
    } else if Recovering(pc) {
      RecoveryJudged(w, pid, pc, o);
    } else {
      ReadingJudged(w, pid, pc, o);
    }
  }

  // ----- Whole runs

  predicate Carrying(s: System) {
    && Informed(s)
    && (forall pc <- s.procs :: HoldsLocality(pc) ==> Carries(s.world, pc))
  }

  lemma OutsiderBreaksNothing(w: World, pc: Pc, e: Event)
    requires !HoldsLocality(pc) && Shape(pc)
    ensures !Breaks(w, pc, e)
  {
  }

  lemma EnteringCarries(w: World, pc: Pc)
    requires Entering(pc)
    ensures Carries(w, pc)
  {
  }

  lemma SamePairIsJudged(w: World, m: Move)
    requires SamePair(w, m.world) && (HoldsLocality(m.pc) ==> Carries(m.world, m.pc))
    ensures Judged(w, m, false)
  {
  }

  lemma OutsiderJudged(w: World, pc: Pc, e: Event)
    requires Owns(w, pc, e.pid) && !HoldsLocality(pc)
    requires HistoryAgrees(w) && HolderKnows(w, pc)
    ensures SamePair(w, Next(w, pc, e).world)
    ensures Judged(w, Next(w, pc, e), Breaks(w, pc, e))
  {
    OutsiderKeepsPair(w, pc, e);
    OutsiderBreaksNothing(w, pc, e);
    var m := Next(w, pc, e);
    if HoldsLocality(m.pc) {
      EnteringCarries(m.world, m.pc);
    }
    SamePairIsJudged(w, m);
  }

  lemma SamePairKeepsCarries(w: World, w': World, pc: Pc)
    requires SamePair(w, w') && Carries(w, pc)
    ensures Carries(w', pc)
  {
  }

  /** In every reachable state and for every event: a recoverable pair stays recoverable
      exactly when the step is not one of the named ones. */
  lemma StepJudged(s: System, e: Event)
    requires Carrying(s)
    ensures Carrying(Step(s, e))
    ensures Recoverable(s.world.disk) ==>
      (Recoverable(Step(s, e).world.disk) <==>
         !(e.pid < |s.procs| && Breaks(s.world, s.procs[e.pid], e)))
  {
    StepKeepsInformed(s, e);
    if e.pid < |s.procs| {
      var w, pc := s.world, s.procs[e.pid];
      assert Owns(w, pc, e.pid) && pc in s.procs;
      if HoldsLocality(pc) {
        if e.Act? && !e.outcome.Crash? {
          HolderJudged(w, e.pid, pc, e.outcome);
        }
        forall i: nat | i < |s.procs| && i != e.pid ensures !HoldsLocality(s.procs[i]) {
          OthersAreOutside(s, e.pid, i);
        }
      } else {
        OutsiderJudged(w, pc, e);
        forall i: nat | i < |s.procs| && i != e.pid && HoldsLocality(s.procs[i])
          ensures Carries(Next(w, pc, e).world, s.procs[i])
        {
          assert s.procs[i] in s.procs;
          SamePairKeepsCarries(w, Next(w, pc, e).world, s.procs[i]);
        }
      }
    }
  }

  /** No step of the run was one of the named ones. */
  predicate Unbroken(s: System, events: seq<Event>) {
    events != [] ==>
      var before, e := Run(s, events[..|events| - 1]), events[|events| - 1];
      && Unbroken(s, events[..|events| - 1])
      && !(e.pid < |before.procs| && Breaks(before.world, before.procs[e.pid], e))
  }

  predicate AlwaysRecoverable(s: System, events: seq<Event>) {
    && Recoverable(Run(s, events).world.disk)
    && (events != [] ==> AlwaysRecoverable(s, events[..|events| - 1]))
  }

  lemma {:induction false} RunKeepsCarrying(s: System, events: seq<Event>)
    requires Initial(s)
    ensures Carrying(Run(s, events))
  {
    if events == [] {
      InitialIsInformed(s);
    } else {
      RunKeepsCarrying(s, events[..|events| - 1]);
      StepJudged(Run(s, events[..|events| - 1]), events[|events| - 1]);
    }
  }

  /** A run keeps its pair recoverable throughout exactly when none of its steps was one of
      the named ones. */
  lemma {:induction false} RecoverableExactly(s: System, events: seq<Event>)
    requires Initial(s) && Recoverable(s.world.disk)
    ensures AlwaysRecoverable(s, events) <==> Unbroken(s, events)
  {
    if events != [] {
      RecoverableExactly(s, events[..|events| - 1]);
      RunKeepsCarrying(s, events[..|events| - 1]);
      StepJudged(Run(s, events[..|events| - 1]), events[|events| - 1]);
    }
  }

  /** The recovery hypothesis rules every named step out. */
  lemma {:induction false} GuardedIsUnbroken(s: System, events: seq<Event>)
    requires Initial(s) && Coherent(s.world.disk) && Guarded(s, events)
    ensures AlwaysRecoverable(s, events) && Unbroken(s, events)
  {
    WholeRunSafety(s, events);
    RecoveredIsCoherent(Run(s, events).world.disk);
    if events != [] {
      GuardedIsUnbroken(s, events[..|events| - 1]);
    }
    RecoverableExactly(s, events);
  }
}
