/** No lost updates: the effective policy is the replay of the publications that stood, in
    the order in which their processes took the policy lock. */
module PolicyHistory {
  import opened Optional
  import opened Temporal
  import opened Disk
  import opened Protocol
  import opened Locks

  /** Applies every publication in turn to a policy. */
  function Replay(log: seq<Commit>, ground: Policy): Policy {
    if log == [] then ground
    else Stored(ApplyAll(log[|log| - 1].edits, Replay(log[..|log| - 1], ground)))
  }

  function LastTicket(log: seq<Commit>): int {
    if log == [] then -1 else log[|log| - 1].ticket
  }

  predicate Ordered(log: seq<Commit>) {
    forall i, j | 0 <= i < j < |log| :: log[i].ticket < log[j].ticket
  }

  predicate Undrawn(pc: Pc) {
    pc.Load? || pc.Save? || pc.Stage?
  }

  /** What the holder of the policy lock knows about the policy and its history. */
  predicate HolderKnows(w: World, pc: Pc) {
    HoldsPolicy(pc) ==>
      && (Undrawn(pc) ==> LastTicket(w.log) < w.tickets)
      && match pc
         case Stage(_, Some(base)) => base == Loaded(w.disk)
         case Save(_, base) => base == Loaded(w.disk)
         case Publish(t, base) => MayUndo(w, t, base)
         case WriteMeta(t, base, _) => MayUndo(w, t, base)
         case Rollback(t, base) => MayUndo(w, t, base)
         case _ => true
  }

  /** The newest publication is this process's own, `base` is what it replaced, and the
      desktop keys are what it made of those it found. */
  predicate MayUndo(w: World, t: Task, base: Base) {
    && w.disk.policy == Doc(Stored(Candidate(t, base)))
    && w.log != []
    && var own := w.log[|w.log| - 1];
    && own == Commit(w.tickets, EditsOf(t), own.seed, own.outcome)
    && w.disk.seed == Mirrored(own.seed, Candidate(t, base), own.outcome)
    && base.policy == Replay(Forget(w.log), w.ground)
    && Stored(base.policy) == base.policy
    && (!base.found ==> base.policy == Fallback(own.seed) && |w.log| == 1)
  }

  predicate HistoryAgrees(w: World) {
    && Canonical(w.disk)
    && Effective(w.disk) == Replay(w.log, w.ground)
    && (w.log != [] ==> w.disk.policy.Doc?)
    && Ordered(w.log) && LastTicket(w.log) <= w.tickets
  }

  predicate HistoryKept(s: System) {
    && LocksAgree(s)
    && HistoryAgrees(s.world)
    && (forall pc <- s.procs :: HolderKnows(s.world, pc))
  }

  // ----- One process's move

  predicate PolicyUntouched(w: World, w': World) {
    && w'.disk.policy == w.disk.policy && w'.disk.seed == w.disk.seed
    && w'.log == w.log && w'.ground == w.ground
  }

  /** Only the holder of the policy lock changes the document or its history. */
  lemma OnlyHolderPublishes(w: World, pid: nat, pc: Pc, o: Outcome)
    requires Owns(w, pc, pid) && !HoldsPolicy(pc)
    ensures
      var m := Advance(w, pid, pc, o);
      && PolicyUntouched(w, m.world)
      && (HoldsPolicy(m.pc) ==> m.pc.Load?)
      && m.world.tickets == (if HoldsPolicy(m.pc) then w.tickets + 1 else w.tickets)
  {
  }

  lemma ReplayExtends(log: seq<Commit>, c: Commit, ground: Policy)
    ensures Replay(log + [c], ground) == Stored(ApplyAll(c.edits, Replay(log, ground)))
  {
    assert (log + [c])[..|log|] == log;
  }

  lemma SaveExtends(w: World, o: Outcome, t: Task, base: Base)
    requires HistoryAgrees(w) && HolderKnows(w, Save(t, base)) && Saved(o)
    ensures HistoryAgrees(DoSave(w, o, t, base).world)
  {
    ReplayExtends(w.log, Commit(w.tickets, EditsOf(t), w.disk.seed, o), w.ground);
    StoredIsStable(Candidate(t, base));
  }

  lemma SaverMayUndo(w: World, o: Outcome, t: Task, base: Base)
    requires HistoryAgrees(w) && HolderKnows(w, Save(t, base)) && Saved(o)
    ensures MayUndo(DoSave(w, o, t, base).world, t, base)
  {
    var own := Commit(w.tickets, EditsOf(t), w.disk.seed, o);
    assert Forget(w.log + [own]) == w.log;
    EffectiveIsStored(w.disk);
  }

  lemma FailedSaveKeeps(w: World, o: Outcome, t: Task, base: Base)
    requires !Saved(o)
    ensures
      var m := DoSave(w, o, t, base);
      m.world == w && (m.pc.Discard? || m.pc.Unlock?)
  {
  }

  lemma SaverKnows(w: World, o: Outcome, t: Task, base: Base)
    requires HistoryAgrees(w) && HolderKnows(w, Save(t, base))
    ensures HistoryAgrees(DoSave(w, o, t, base).world)
    ensures HolderKnows(DoSave(w, o, t, base).world, DoSave(w, o, t, base).pc)
  {
    if Saved(o) {
      SaveExtends(w, o, t, base);
      SaverMayUndo(w, o, t, base);
      var m := DoSave(w, o, t, base);
      assert m.pc == Publish(t, base) || m.pc.Unlock?;
    } else {
      FailedSaveKeeps(w, o, t, base);
    }
  }

  lemma RollbackForgets(w: World, o: Outcome, t: Task, base: Base)
    requires HistoryAgrees(w) && HolderKnows(w, Rollback(t, base))
    ensures
      var m := DoRollback(w, o, t, base);
      HistoryAgrees(m.world) && HolderKnows(m.world, m.pc)
  {
  }

  lemma LoaderKnows(w: World, pid: nat, pc: Pc, o: Outcome)
    requires Owns(w, pc, pid) && (pc.Load? || (pc.Stage? && HoldsPolicy(pc)))
    requires HistoryAgrees(w) && HolderKnows(w, pc)
    ensures
      var m := Advance(w, pid, pc, o);
      PolicyUntouched(w, m.world) && m.world.tickets == w.tickets && HolderKnows(w, m.pc)
  {
  }

  lemma CommitterKnows(w: World, pid: nat, pc: Pc, o: Outcome)
    requires Owns(w, pc, pid) && (pc.Publish? || pc.WriteMeta?)
    requires HolderKnows(w, pc)
    ensures
      var m := Advance(w, pid, pc, o);
      PolicyUntouched(w, m.world) && m.world.tickets == w.tickets && HolderKnows(w, m.pc)
  {
  }

  lemma CleanerKnows(w: World, pid: nat, pc: Pc, o: Outcome)
    requires Owns(w, pc, pid) && (pc.DropJournal? || pc.Discard? || pc.Unlock?)
    ensures
      var m := Advance(w, pid, pc, o);
      PolicyUntouched(w, m.world) && m.world.tickets == w.tickets && HolderKnows(w, m.pc)
  {
  }

  lemma HolderIdles(w: World, pid: nat, pc: Pc, o: Outcome)
    requires Owns(w, pc, pid) && HoldsPolicy(pc) && !pc.Save? && !pc.Rollback?
    requires HistoryAgrees(w) && HolderKnows(w, pc)
    ensures
      var m := Advance(w, pid, pc, o);
      PolicyUntouched(w, m.world) && m.world.tickets == w.tickets && HolderKnows(w, m.pc)
  {
    if pc.Load? || pc.Stage? {
      LoaderKnows(w, pid, pc, o);
    } else if pc.Publish? || pc.WriteMeta? {
      CommitterKnows(w, pid, pc, o);
    } else {
      CleanerKnows(w, pid, pc, o);
    }
  }

  lemma HolderMoves(w: World, pid: nat, pc: Pc, o: Outcome)
    requires Owns(w, pc, pid) && HoldsPolicy(pc)
    requires HistoryAgrees(w) && HolderKnows(w, pc)
    ensures
      var m := Advance(w, pid, pc, o);
      HistoryAgrees(m.world) && HolderKnows(m.world, m.pc)
  {
    if pc.Save? {
      SaverKnows(w, o, pc.task, pc.base);
    } else if pc.Rollback? {
      RollbackForgets(w, o, pc.task, pc.base);
    } else {
      HolderIdles(w, pid, pc, o);
    }
  }

  lemma HistoryMoves(w: World, pc: Pc, e: Event)
    requires Owns(w, pc, e.pid) && HistoryAgrees(w) && HolderKnows(w, pc)
    ensures
      var m := Next(w, pc, e);
      && HistoryAgrees(m.world) && HolderKnows(m.world, m.pc)
      && (!HoldsPolicy(pc) ==> PolicyUntouched(w, m.world))
      && (!HoldsPolicy(pc) && !HoldsPolicy(m.pc) ==> m.world.tickets == w.tickets)
  {
    if e.Act? && !e.outcome.Crash? {
      if HoldsPolicy(pc) {
        HolderMoves(w, e.pid, pc, e.outcome);
      } else {
        OnlyHolderPublishes(w, e.pid, pc, e.outcome);
      }
    }
  }

  // ----- Whole runs

  lemma StepKeepsHistory(s: System, e: Event)
    requires HistoryKept(s)
    ensures HistoryKept(Step(s, e))
  {
    StepKeepsLocks(s, e);
    if e.pid < |s.procs| {
      var pc := s.procs[e.pid];
      var m := Next(s.world, pc, e);
      assert Owns(s.world, pc, e.pid);
      HistoryMoves(s.world, pc, e);
      NextMoves(s.world, pc, e);
      forall i: nat | i < |s.procs| && i != e.pid ensures HolderKnows(m.world, s.procs[i]) {
        assert Owns(s.world, s.procs[i], i) && s.procs[i] in s.procs;
      }
    }
  }

  lemma {:induction false} RunKeepsHistory(s: System, events: seq<Event>)
    requires HistoryKept(s)
    ensures HistoryKept(Run(s, events))
  {
    if events != [] {
      RunKeepsHistory(s, events[..|events| - 1]);
      StepKeepsHistory(Run(s, events[..|events| - 1]), events[|events| - 1]);
    }
  }

  /** For every interleaving, failure pattern and crash pattern, the effective policy is the
      replay of the publications that were not rolled back, in policy-lock order, over the
      policy that was effective when none of them stood. */
  lemma NoLostUpdates(s: System, events: seq<Event>)
    requires Initial(s)
    ensures
      var now := Run(s, events).world;
      && Effective(now.disk) == Replay(now.log, now.ground)
      && Ordered(now.log)
      && (forall c <- now.log :: c.ticket <= now.tickets)
  {
    InitialAgrees(s);
    RunKeepsHistory(s, events);
    var log := Run(s, events).world.log;
    assert forall i | 0 <= i < |log| :: log[i].ticket <= log[|log| - 1].ticket;
  }

  /** A publication enters the history when it is saved and leaves it only when the same
      process undoes it; nobody else's publication is ever removed. */
  lemma OnlyOwnCommitUndone(s: System, events: seq<Event>, e: Event)
    requires Initial(s) && e.pid < |Run(s, events).procs|
    ensures
      var now := Run(s, events);
      var pc := now.procs[e.pid];
      var log, log' := now.world.log, Step(now, e).world.log;
      || log' == log
      || (pc.Save? && e.Act?
          && log' == log + [Commit(now.world.tickets, EditsOf(pc.task), now.world.disk.seed, e.outcome)])
      || (pc.Rollback? && log != [] && log' == Forget(log)
          && log[|log| - 1].ticket == now.world.tickets && log[|log| - 1].edits == EditsOf(pc.task))
  {
    InitialAgrees(s);
    RunKeepsHistory(s, events);
    var now := Run(s, events);
    var pc := now.procs[e.pid];
    assert Owns(now.world, pc, e.pid) && pc in now.procs;
    if e.Act? && !e.outcome.Crash? && !pc.Save? && !pc.Rollback? {
      LogKept(now.world, e.pid, pc, e.outcome);
    }
  }

  lemma LogKept(w: World, pid: nat, pc: Pc, o: Outcome)
    requires !pc.Save? && !pc.Rollback?
    ensures Advance(w, pid, pc, o).world.log == w.log
    ensures Advance(w, pid, pc, o).world.ground == w.ground
    ensures Advance(w, pid, pc, o).world.disk.policy == w.disk.policy
    ensures Advance(w, pid, pc, o).world.disk.seed == w.disk.seed
  {
  }

  // ----- Location ownership

  /** A publication of fields only leaves the location as it found it. */
  lemma FieldsKeepPlace(w: World, o: Outcome, t: Task, base: Base)
    requires t.ChangeFields? && Proper(t) && Canonical(w.disk) && base == Loaded(w.disk)
    ensures Effective(DoSave(w, o, t, base).world.disk).place == Effective(w.disk).place
  {
    LastMoveWins(t.edits, base.policy);
    EffectiveIsStored(w.disk);
  }

  lemma PlaceKept(w: World, pc: Pc, e: Event)
    requires Owns(w, pc, e.pid) && HistoryAgrees(w) && HolderKnows(w, pc)
    requires !HoldsLocality(pc) || !HoldsPolicy(pc)
    ensures Effective(Next(w, pc, e).world.disk).place == Effective(w.disk).place
  {
    if e.Act? && !e.outcome.Crash? {
      if pc.Save? {
        FieldsKeepPlace(w, e.outcome, pc.task, pc.base);
      } else {
        LogKept(w, e.pid, pc, e.outcome);
      }
    }
  }

  /** In every run the effective location changes only in a step of the process that holds
      the locality lock, so what recovery reads without the policy lock stays true. */
  lemma LocationOwnership(s: System, events: seq<Event>, e: Event)
    requires Initial(s)
    requires
      var now := Run(s, events);
      Effective(Step(now, e).world.disk).place != Effective(now.world.disk).place
    ensures
      var now := Run(s, events);
      && e.pid < |now.procs| && HoldsPolicy(now.procs[e.pid])
      && now.world.localityOwner == Some(e.pid)
  {
    InitialAgrees(s);
    RunKeepsHistory(s, events);
    var now := Run(s, events);
    var pc := now.procs[e.pid];
    assert Owns(now.world, pc, e.pid) && pc in now.procs;
    if !HoldsLocality(pc) || !HoldsPolicy(pc) {
      PlaceKept(now.world, pc, e);
    }
  }
}
