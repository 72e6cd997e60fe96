/** Rollback to absence and the desktop keys.

    Every save also writes the desktop keys from which a later load without a document seeds
    its defaults; a rollback that removes the document does not write them back. This module
    says exactly when that matters. */
module DesktopKeys {
  import opened Optional
  import opened Temporal
  import opened Disk
  import opened Protocol
  import opened Locks
  import opened PolicyHistory

  /** The publication that a rollback is about to undo changed no desktop key. */
  predicate KeysKept(w: World, pc: Pc)
    requires pc.Rollback? && w.log != []
  {
    var own := w.log[|w.log| - 1];
    Mirrored(own.seed, Candidate(pc.task, pc.base), own.outcome) == own.seed
  }

  /** The step is a rollback that takes effect. */
  predicate Undoing(s: System, e: Event) {
    && e.pid < |s.procs| && e.Act? && !e.outcome.Crash?
    && s.procs[e.pid].Rollback? && Undone(e.outcome, s.procs[e.pid].base)
  }

  lemma FallbackTellsSeeds(a: Seed, b: Seed)
    requires a.mirrored == b.mirrored
    ensures Fallback(a) == Fallback(b) <==> a == b
  {
  }

  lemma UndoRestores(w: World, pc: Pc, o: Outcome)
    requires pc.Rollback? && Undone(o, pc.base) && HistoryAgrees(w) && MayUndo(w, pc.task, pc.base)
    ensures
      var m := DoRollback(w, o, pc.task, pc.base);
      && (Effective(m.world.disk) == pc.base.policy <==> pc.base.found || KeysKept(w, pc))
      && (m.world.ground == w.ground <==> pc.base.found || KeysKept(w, pc))
      && (!pc.base.found ==> m.world.ground == Fallback(w.disk.seed) && w.ground == pc.base.policy)
  {
    var own := w.log[|w.log| - 1];
    FallbackTellsSeeds(w.disk.seed, own.seed);
    if !pc.base.found {
      assert Forget(w.log) == [];
    }
  }

  /** In every run, a rollback restores the effective policy that it replaced exactly when a
      document was there, or its publication had changed no desktop key. */
  lemma RollbackRestores(s: System, events: seq<Event>, e: Event)
    requires Initial(s) && Undoing(Run(s, events), e)
    ensures
      var now := Run(s, events);
      var pc := now.procs[e.pid];
      && now.world.log != []
      && (Effective(Step(now, e).world.disk) == pc.base.policy
          <==> pc.base.found || KeysKept(now.world, pc))
  {
    InitialAgrees(s);
    RunKeepsHistory(s, events);
    var now := Run(s, events);
    var pc := now.procs[e.pid];
    assert pc in now.procs && Owns(now.world, pc, e.pid);
    UndoRestores(now.world, pc, e.outcome);
  }

  /** The ground of the replay moves in exactly those rollbacks, and only in its clock and
      seconds. */
  lemma GroundMoves(s: System, events: seq<Event>, e: Event)
    requires Initial(s)
    ensures
      var now := Run(s, events);
      var ground, ground' := now.world.ground, Step(now, e).world.ground;
      && SameBesides(ground, ground')
      && (ground' != ground <==>
            && Undoing(now, e) && now.world.log != []
            && !now.procs[e.pid].base.found && !KeysKept(now.world, now.procs[e.pid]))
  {
    InitialAgrees(s);
    RunKeepsHistory(s, events);
    var now := Run(s, events);
    if e.pid < |now.procs| && e.Act? && !e.outcome.Crash? {
      var pc := now.procs[e.pid];
      assert pc in now.procs && Owns(now.world, pc, e.pid);
      if Undoing(now, e) {
        UndoRestores(now.world, pc, e.outcome);
      } else {
        GroundKept(now.world, e.pid, pc, e.outcome);
      }
    }
  }

  lemma GroundKept(w: World, pid: nat, pc: Pc, o: Outcome)
    requires !(pc.Rollback? && Undone(o, pc.base))
    ensures Advance(w, pid, pc, o).world.ground == w.ground
  {
    if !pc.Rollback? && !pc.Save? {
      LogKept(w, pid, pc, o);
    }
  }

  /** Only a command line can move the ground: the panel replaces the location alone, so it
      writes back the very keys that its own defaults came from. */
  lemma PanelKeepsKeys(s: System, events: seq<Event>, e: Event)
    requires Initial(s) && Undoing(Run(s, events), e)
    requires Run(s, events).procs[e.pid].task.SelectPlace?
    ensures
      var now := Run(s, events);
      Effective(Step(now, e).world.disk) == now.procs[e.pid].base.policy
  {
    InitialAgrees(s);
    RunKeepsHistory(s, events);
    var now := Run(s, events);
    var pc := now.procs[e.pid];
    assert pc in now.procs && Owns(now.world, pc, e.pid);
    RollbackRestores(s, events, e);
    if !pc.base.found {
      var own := now.world.log[|now.world.log| - 1];
      PlaceEditKeepsRest(pc.task, pc.base);
      SteadyIsExact(own.seed, Candidate(pc.task, pc.base), own.outcome);
    }
  }

  lemma PlaceEditKeepsRest(t: Task, base: Base)
    requires t.SelectPlace?
    ensures Candidate(t, base).clock == base.policy.clock
    ensures Candidate(t, base).seconds == base.policy.seconds
  {
    assert EditsOf(t)[..0] == [];
    assert ApplyAll(EditsOf(t)[..0], base.policy) == base.policy;
  }

  // ----- Replaying over another ground

  /** Equal but for the two fields that have desktop keys. */
  predicate SameBesides(p: Policy, q: Policy) {
    p.calendar == q.calendar && p.place == q.place
  }

  predicate SetsClock(es: seq<Edit>) {
    exists i | 0 <= i < |es| :: es[i].SetClock?
  }

  predicate SetsSeconds(es: seq<Edit>) {
    exists i | 0 <= i < |es| :: es[i].SetSeconds?
  }

  lemma {:induction false} ApplyOver(es: seq<Edit>, p: Policy, q: Policy)
    requires SameBesides(p, q)
    ensures
      var p', q' := ApplyAll(es, p), ApplyAll(es, q);
      && SameBesides(p', q')
      && (p'.clock == q'.clock <==> p.clock == q.clock || SetsClock(es))
      && (p'.seconds == q'.seconds <==> p.seconds == q.seconds || SetsSeconds(es))
  {
    if es != [] {
      var front, last := es[..|es| - 1], es[|es| - 1];
      ApplyOver(front, p, q);
      assert SetsClock(es) <==> SetsClock(front) || last.SetClock? by {
        assert forall i | 0 <= i < |front| :: front[i] == es[i];
      }
      assert SetsSeconds(es) <==> SetsSeconds(front) || last.SetSeconds? by {
        assert forall i | 0 <= i < |front| :: front[i] == es[i];
      }
    }
  }

  predicate Rewrites(log: seq<Commit>, sets: seq<Edit> -> bool) {
    exists i | 0 <= i < |log| :: sets(log[i].edits)
  }

  /** Two replays over grounds that differ in clock and seconds agree exactly when the log
      rewrites whatever differs. */
  lemma {:induction false} ReplayOver(log: seq<Commit>, p: Policy, q: Policy)
    requires SameBesides(p, q)
    ensures
      var p', q' := Replay(log, p), Replay(log, q);
      && SameBesides(p', q')
      && (p'.clock == q'.clock <==> p.clock == q.clock || Rewrites(log, SetsClock))
      && (p'.seconds == q'.seconds <==> p.seconds == q.seconds || Rewrites(log, SetsSeconds))
  {
    if log != [] {
      var front, last := log[..|log| - 1], log[|log| - 1];
      ReplayOver(front, p, q);
      ApplyOver(last.edits, Replay(front, p), Replay(front, q));
      RewritesSplit(log, SetsClock);
      RewritesSplit(log, SetsSeconds);
    }
  }

  lemma RewritesSplit(log: seq<Commit>, sets: seq<Edit> -> bool)
    requires log != []
    ensures Rewrites(log, sets) <==>
              Rewrites(log[..|log| - 1], sets) || sets(log[|log| - 1].edits)
  {
    var front := log[..|log| - 1];
    assert forall i | 0 <= i < |front| :: front[i] == log[i];
  }

  lemma {:induction false} GroundStaysClose(s: System, events: seq<Event>)
    requires Initial(s)
    ensures SameBesides(Effective(s.world.disk), Run(s, events).world.ground)
  {
    if events != [] {
      GroundStaysClose(s, events[..|events| - 1]);
      GroundMoves(s, events[..|events| - 1], events[|events| - 1]);
    }
  }

  /** For every run: the effective policy is the standing publications applied to the policy
      that the run began with exactly when they rewrite each of clock and seconds that some
      rolled-back publication left changed on the desktop. */
  lemma RolledBackContributeNothing(s: System, events: seq<Event>)
    requires Initial(s)
    ensures
      var now, began := Run(s, events).world, Effective(s.world.disk);
      Effective(now.disk) == Replay(now.log, began) <==>
        && (now.ground.clock == began.clock || Rewrites(now.log, SetsClock))
        && (now.ground.seconds == began.seconds || Rewrites(now.log, SetsSeconds))
  {
    NoLostUpdates(s, events);
    GroundStaysClose(s, events);
    ReplayOver(Run(s, events).world.log, Run(s, events).world.ground, Effective(s.world.disk));
  }
}
