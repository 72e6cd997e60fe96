/** Recovery is idempotent, tolerates its own crashes and failures, and never loses the
    journal of a published location. */
module RecoveryRuns {
  import opened Optional
  import opened Temporal
  import opened Disk
  import opened Protocol
  import opened Locks
  import opened PolicyHistory
  import opened Knowledge

  /** The two durable halves of the locality. */
  datatype Pair = Pair(place: Location, metadata: File<Metadata>)

  function PairOf(d: Disk): Pair {
    Pair(Effective(d).place, d.metadata)
  }

  predicate Settled(d: Disk) {
    PairOf(d) == PairOf(Recovered(d))
  }

  predicate Harmless(t: Task) {
    t.Recover? || t.ChangeFields?
  }

  /** A process that recovers, publishes fields only, or is idle. */
  predicate Bystander(pc: Pc) {
    || pc.Idle? || Recovering(pc)
    || (Harmless(pc.task) && !(HoldsLocality(pc) && HoldsPolicy(pc)))
  }

  predicate OnlyRecoveries(events: seq<Event>) {
    forall e <- events :: e.Start? ==> Harmless(e.task)
  }

  // ----- One process's move

  /** However a primitive of recovery goes, it does not change where recovery will end. */
  lemma RecoveryKeepsGoal(w: World, pid: nat, pc: Pc, o: Outcome)
    requires Owns(w, pc, pid) && Recovering(pc) && Knows(w, pc)
    ensures
      var m := Advance(w, pid, pc, o);
      && PairOf(Recovered(m.world.disk)) == PairOf(Recovered(w.disk))
      && (Settled(w.disk) ==> Settled(m.world.disk))
      && (m.world.recoveries == w.recoveries
          || (m.world.recoveries == w.recoveries + 1 && Settled(m.world.disk)))
      && (Recovering(m.pc) || m.pc == Unlock(Recover, true, false))
  {
  }

  lemma BystanderKeepsPair(w: World, pid: nat, pc: Pc, o: Outcome)
    requires Owns(w, pc, pid) && Bystander(pc) && !Recovering(pc)
    requires HistoryAgrees(w) && HolderKnows(w, pc)
    ensures
      var m := Advance(w, pid, pc, o);
      && Effective(m.world.disk).place == Effective(w.disk).place
      && m.world.disk.metadata == w.disk.metadata && m.world.disk.journal == w.disk.journal
      && m.world.recoveries == w.recoveries
      && Bystander(m.pc)
  {
    PlaceKept(w, pc, Act(pid, o));
    BystanderWritesNothing(w, pid, pc, o);
  }

  lemma BystanderWritesNothing(w: World, pid: nat, pc: Pc, o: Outcome)
    requires Owns(w, pc, pid) && Bystander(pc) && !Recovering(pc)
    ensures
      var m := Advance(w, pid, pc, o);
      && m.world.disk.metadata == w.disk.metadata && m.world.disk.journal == w.disk.journal
      && m.world.recoveries == w.recoveries
      && Bystander(m.pc)
  {
  }

  /** The goal of recovery depends on the location, the metadata and the journal only. */
  lemma GoalOfSamePair(d: Disk, d': Disk)
    requires Effective(d').place == Effective(d).place
    requires d'.metadata == d.metadata && d'.journal == d.journal
    ensures PairOf(Recovered(d')) == PairOf(Recovered(d)) && (Settled(d) ==> Settled(d'))
  {
  }

  predicate Advanced(w: World, w': World) {
    && PairOf(Recovered(w'.disk)) == PairOf(Recovered(w.disk))
    && (Settled(w.disk) ==> Settled(w'.disk))
    && (w'.recoveries == w.recoveries || Settled(w'.disk))
  }

  lemma RecoveryAdvances(w: World, pid: nat, pc: Pc, o: Outcome)
    requires Owns(w, pc, pid) && Recovering(pc) && Knows(w, pc)
    ensures Advanced(w, Advance(w, pid, pc, o).world) && Bystander(Advance(w, pid, pc, o).pc)
  {
    RecoveryKeepsGoal(w, pid, pc, o);
  }

  lemma BystanderAdvances(w: World, pid: nat, pc: Pc, o: Outcome)
    requires Owns(w, pc, pid) && Bystander(pc) && !Recovering(pc)
    requires HistoryAgrees(w) && HolderKnows(w, pc)
    ensures Advanced(w, Advance(w, pid, pc, o).world) && Bystander(Advance(w, pid, pc, o).pc)
  {
    BystanderKeepsPair(w, pid, pc, o);
    GoalOfSamePair(w.disk, Advance(w, pid, pc, o).world.disk);
  }

  lemma BystanderMoves(w: World, pc: Pc, e: Event)
    requires Owns(w, pc, e.pid) && Bystander(pc)
    requires HistoryAgrees(w) && HolderKnows(w, pc)
    requires HoldsLocality(pc) ==> Knows(w, pc)
    requires e.Start? ==> Harmless(e.task)
    ensures Advanced(w, Next(w, pc, e).world) && Bystander(Next(w, pc, e).pc)
  {
    if e.Act? && !e.outcome.Crash? {
      if Recovering(pc) {
        RecoveryAdvances(w, e.pid, pc, e.outcome);
      } else {
        BystanderAdvances(w, e.pid, pc, e.outcome);
      }
    } else {
      GoalOfSamePair(w.disk, Next(w, pc, e).world.disk);
    }
  }

  // ----- Whole runs

  /** Let any number of processes run recoveries and field publications, crash and fail in
      any way. Where recovery ends never changes, and once one recovery has reported success
      the pair on disk is what a single undisturbed recovery would have left, for good. */
  lemma {:induction false} RecoveryConverges(s: System, events: seq<Event>)
    requires Informed(s) && (forall pc <- s.procs :: Bystander(pc))
    requires OnlyRecoveries(events)
    ensures Informed(Run(s, events))
    ensures forall pc <- Run(s, events).procs :: Bystander(pc)
    ensures
      var w, w' := s.world, Run(s, events).world;
      && PairOf(Recovered(w'.disk)) == PairOf(Recovered(w.disk))
      && (w'.recoveries > w.recoveries ==> PairOf(w'.disk) == PairOf(Recovered(w.disk)))
      && (Settled(w.disk) ==> PairOf(w'.disk) == PairOf(w.disk))
      && w'.recoveries >= w.recoveries
  {
    if events != [] {
      var before := Run(s, events[..|events| - 1]);
      var e := events[|events| - 1];
      assert e in events;
      RecoveryConverges(s, events[..|events| - 1]);
      StepKeepsInformed(before, e);
      if e.pid < |before.procs| {
        var pc := before.procs[e.pid];
        assert Owns(before.world, pc, e.pid) && pc in before.procs;
        BystanderMoves(before.world, pc, e);
        RecoveriesGrow(before.world, pc, e);
      }
    }
  }

  lemma RecoveriesGrow(w: World, pc: Pc, e: Event)
    ensures Next(w, pc, e).world.recoveries >= w.recoveries
  {
  }

  /** In every run, a step of recovery drops a journal only when that record does not match
      the published location, or is already the committed metadata. */
  lemma RecoveryKeepsEvidence(s: System, events: seq<Event>, e: Event)
    requires Initial(s)
    requires
      var now := Run(s, events);
      && e.pid < |now.procs| && Recovering(now.procs[e.pid])
      && !now.world.disk.journal.Missing? && Step(now, e).world.disk.journal.Missing?
    ensures
      var d := Run(s, events).world.disk;
      !JournalMatches(d) || d.metadata == d.journal
  {
    var now := Run(s, events);
    var pc := now.procs[e.pid];
    InitialIsInformed(s);
    RunKeepsInformed(s, events);
    assert Owns(now.world, pc, e.pid) && pc in now.procs;
  }

  /** What one process has read successfully since it last tried for the locality lock. */
  datatype Evidence = Evidence(policy: bool, journal: bool)

  function Gathered(s: System, events: seq<Event>, pid: nat): Evidence
    requires pid < |s.procs|
  {
    if events == [] then Evidence(false, false)
    else
      var front, e := events[..|events| - 1], events[|events| - 1];
      RunKeepsCount(s, front);
      More(Gathered(s, front, pid), Run(s, front).procs[pid], e, pid)
  }

  function More(gathered: Evidence, pc: Pc, e: Event, pid: nat): Evidence {
    if e.pid != pid || !e.Act? then gathered
    else if pc.Begin? then Evidence(false, false)
    else if pc.RecoverPolicy? && e.outcome.Ok? then gathered.(policy := true)
    else if pc.RecoverJournal? && e.outcome.Ok? then gathered.(journal := true)
    else gathered
  }

  lemma {:induction false} RunKeepsCount(s: System, events: seq<Event>)
    ensures |Run(s, events).procs| == |s.procs|
  {
    if events != [] {
      RunKeepsCount(s, events[..|events| - 1]);
    }
  }

  /** A recovering process has the evidence that its program point rests on. */
  predicate Evident(gathered: Evidence, pc: Pc) {
    && (pc.RecoverJournal? ==> gathered.policy)
    && (Recovering(pc) && !pc.RecoverPolicy? && !pc.RecoverJournal? ==>
          gathered.policy && gathered.journal)
  }

  lemma NextIsEvident(w: World, pc: Pc, e: Event, gathered: Evidence)
    requires Evident(gathered, pc) && Shape(pc)
    ensures Evident(More(gathered, pc, e, e.pid), Next(w, pc, e).pc)
  {
  }

  lemma {:induction false} RunIsEvident(s: System, events: seq<Event>, pid: nat)
    requires Initial(s) && pid < |s.procs|
    ensures |Run(s, events).procs| == |s.procs|
    ensures Evident(Gathered(s, events, pid), Run(s, events).procs[pid])
  {
    RunKeepsCount(s, events);
    if events == [] {
      assert s.procs[pid] in s.procs;
    } else {
      var front, e := events[..|events| - 1], events[|events| - 1];
      RunIsEvident(s, front, pid);
      InitialAgrees(s);
      RunKeepsLocks(s, front);
      var before := Run(s, front);
      if e.pid == pid {
        assert Owns(before.world, before.procs[pid], pid);
        NextIsEvident(before.world, before.procs[pid], e, Gathered(s, front, pid));
      }
    }
  }

  /** In every run, a step of recovery that removes the journal is taken by a process that
      has read both the policy and the journal successfully since it took the lock. So as
      long as either cannot be read, no recovery ever deletes a journal. */
  lemma UnreadableIsPreserved(s: System, events: seq<Event>, e: Event)
    requires Initial(s) && e.pid < |s.procs|
    requires
      var now := Run(s, events);
      && e.pid < |now.procs| && Recovering(now.procs[e.pid])
      && !now.world.disk.journal.Missing? && Step(now, e).world.disk.journal.Missing?
    ensures Gathered(s, events, e.pid) == Evidence(true, true)
  {
    var now := Run(s, events);
    RunIsEvident(s, events, e.pid);
    if now.procs[e.pid].RecoverPolicy? || now.procs[e.pid].RecoverJournal? {
      ReadingKeepsJournal(now.world, now.procs[e.pid], e);
    }
  }

  lemma ReadingKeepsJournal(w: World, pc: Pc, e: Event)
    requires pc.RecoverPolicy? || pc.RecoverJournal?
    ensures Next(w, pc, e).world.disk == w.disk
  {
  }

  /** One recovery acting alone, seen from the disk: failures never move its goal, and
      success means the goal is reached. */
  lemma SoloRecovery(d: Disk, outs: seq<Outcome>)
    requires Canonical(d)
    ensures
      var w := Alone(FreshWorld(d), 0, Begin(Recover), outs).world;
      && PairOf(Recovered(w.disk)) == PairOf(Recovered(d))
      && (w.recoveries > 0 ==> PairOf(w.disk) == PairOf(Recovered(d)))
  {
    var s := System(FreshWorld(d), [Begin(Recover)]);
    assert forall i: nat | i < 1 :: Owns(s.world, s.procs[i], i);
    assert s.procs[0] == Begin(Recover) && Acts(0, outs) == Acts(0, outs);
    assert OnlyRecoveries(Acts(0, outs));
    RecoveryConverges(s, Acts(0, outs));
    AloneIsRun(s, 0, outs);
  }
}
