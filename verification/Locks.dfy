/** Lock discipline of the step system: mutual exclusion, and release on every exit. */
module Locks {
  import opened Optional
  import opened Temporal
  import opened Disk
  import opened Protocol

  /** Which tasks reach which point. */
  predicate Shape(pc: Pc) {
    match pc
    case Idle => true
    case Begin(t) => NeedsLocality(t) && Proper(t)
    case Inspect(t) => t.SelectPlace?
    case Stage(t, early) => PairWriter(t) && Proper(t) && TargetOf(t).Some? && (early.Some? <==> t.Batch?)
    case WantPolicy(t) => Publishes(t)
    case Load(t) => Publishes(t)
    case Save(t, _) => Publishes(t) && !t.Reject?
    case Publish(t, _) => PairWriter(t) && Proper(t)
    case WriteMeta(t, _, _) => PairWriter(t) && Proper(t) && TargetOf(t).Some?
    case DropJournal(t) => PairWriter(t) && Proper(t) && TargetOf(t).Some?
    case Rollback(t, _) => PairWriter(t) && Proper(t)
    case Discard(t, _) => PairWriter(t) && Proper(t) && TargetOf(t).Some?
    case Unlock(t, locality, policy) =>
      Proper(t) && locality == NeedsLocality(t) && (locality || policy)
    case Survey(t) => t.FollowZone?
    case SurveyMeta(t, _) => t.FollowZone?
    case SaveZone(t, _, _) => t.FollowZone?
    case _ => true
  }

  /** Tasks that come to publish a policy; reconciliation does so only with a reference. */
  predicate Publishes(t: Task) {
    Proper(t) && !t.Recover? && (t.FollowZone? ==> t.reference.Some?)
  }

  predicate Owns(w: World, pc: Pc, pid: nat) {
    && Shape(pc)
    && (HoldsLocality(pc) <==> w.localityOwner == Some(pid))
    && (HoldsPolicy(pc) <==> w.policyOwner == Some(pid))
  }

  /** Each lock has at most one holder, and the processes know exactly who holds what. */
  predicate LocksAgree(s: System) {
    && (forall i: nat | i < |s.procs| :: Owns(s.world, s.procs[i], i))
    && (s.world.localityOwner.Some? ==> s.world.localityOwner.value < |s.procs|)
    && (s.world.policyOwner.Some? ==> s.world.policyOwner.value < |s.procs|)
  }

  function NewOwner(before: Option<nat>, held: bool, holds: bool, pid: nat): Option<nat> {
    if holds then Some(pid) else if held then None else before
  }

  /** How one process's move may change the lock owners. */
  predicate Moved(w: World, pc: Pc, m: Move, pid: nat) {
    && Shape(m.pc)
    && m.world.localityOwner
         == NewOwner(w.localityOwner, HoldsLocality(pc), HoldsLocality(m.pc), pid)
    && m.world.policyOwner == NewOwner(w.policyOwner, HoldsPolicy(pc), HoldsPolicy(m.pc), pid)
    && (HoldsLocality(m.pc) && !HoldsLocality(pc) ==> w.localityOwner.None?)
    && (HoldsPolicy(m.pc) && !HoldsPolicy(pc) ==> w.policyOwner.None?)
  }

  /** Steps that take, publish under, or give up the locks on behalf of a writer. */
  predicate Publishing(pc: Pc) {
    pc.Save? || pc.Publish? || pc.WriteMeta? || pc.DropJournal? || pc.Rollback? || pc.Discard?
  }

  predicate Recovering(pc: Pc) {
    || pc.RecoverPolicy? || pc.RecoverJournal? || pc.RecoverRead? || pc.RecoverWrite?
    || pc.RecoverDrop? || pc.RecoverDiscard? || pc.RecoverClear?
  }

  lemma PublishingMoves(w: World, pid: nat, pc: Pc, o: Outcome)
    requires Owns(w, pc, pid) && Publishing(pc)
    ensures Moved(w, pc, Advance(w, pid, pc, o), pid)
  {
  }

  lemma RecoveringMoves(w: World, pid: nat, pc: Pc, o: Outcome)
    requires Owns(w, pc, pid) && Recovering(pc)
    ensures Moved(w, pc, Advance(w, pid, pc, o), pid)
  {
  }

  lemma AdvanceMoves(w: World, pid: nat, pc: Pc, o: Outcome)
    requires Owns(w, pc, pid)
    ensures Moved(w, pc, Advance(w, pid, pc, o), pid)
  {
    if Publishing(pc) {
      PublishingMoves(w, pid, pc, o);
    } else if Recovering(pc) {
      RecoveringMoves(w, pid, pc, o);
    }
  }

  lemma NextMoves(w: World, pc: Pc, e: Event)
    requires Owns(w, pc, e.pid)
    ensures Moved(w, pc, Next(w, pc, e), e.pid)
  {
    if e.Act? && !e.outcome.Crash? {
      AdvanceMoves(w, e.pid, pc, e.outcome);
    }
  }

  lemma StepKeepsLocks(s: System, e: Event)
    requires LocksAgree(s)
    ensures LocksAgree(Step(s, e))
  {
    if e.pid < |s.procs| {
      NextMoves(s.world, s.procs[e.pid], e);
      var s' := Step(s, e);
      forall i: nat | i < |s'.procs| ensures Owns(s'.world, s'.procs[i], i) {
        assert Owns(s.world, s.procs[i], i);
      }
    }
  }

  lemma {:induction false} RunKeepsLocks(s: System, events: seq<Event>)
    requires LocksAgree(s)
    ensures LocksAgree(Run(s, events)) && |Run(s, events).procs| == |s.procs|
  {
    if events != [] {
      RunKeepsLocks(s, events[..|events| - 1]);
      StepKeepsLocks(Run(s, events[..|events| - 1]), events[|events| - 1]);
    }
  }

  lemma InitialAgrees(s: System)
    requires Initial(s)
    ensures LocksAgree(s)
  {
    forall i: nat | i < |s.procs| ensures Owns(s.world, s.procs[i], i) {
      assert s.procs[i] in s.procs;
    }
  }

  /** In every run each lock has at most one holder, whatever fails or crashes. */
  lemma MutualExclusion(s: System, events: seq<Event>, i: nat, j: nat)
    requires Initial(s) && i < j < |s.procs|
    ensures |Run(s, events).procs| == |s.procs|
    ensures
      var procs := Run(s, events).procs;
      && !(HoldsLocality(procs[i]) && HoldsLocality(procs[j]))
      && !(HoldsPolicy(procs[i]) && HoldsPolicy(procs[j]))
  {
    InitialAgrees(s);
    RunKeepsLocks(s, events);
    var now := Run(s, events);
    assert Owns(now.world, now.procs[i], i) && Owns(now.world, now.procs[j], j);
  }

  // ----- Every task ends

  /** An upper bound on the primitives a process still performs before it is idle. */
  function Rank(pc: Pc): nat {
    match pc
    case Idle => 0
    case Unlock(_, locality, policy) =>
      1 + (if locality then 1 else 0) + (if policy then 1 else 0)
    case Discard(_, locked) => if locked then 5 else 3
    case DropJournal(_) => 4
    case Rollback(_, _) => 6
    case WriteMeta(_, _, _) => 7
    case Publish(_, _) => 8
    case Save(_, _) => 9
    case Stage(_, early) => if early.Some? then 10 else 13
    case Load(_) => 11
    case WantPolicy(_) => 12
    case Inspect(_) => 14
    case Begin(_) => 16
    case Survey(_) => 15
    case SurveyMeta(_, _) => 14
    case SaveZone(_, _, _) => 3
    case RecoverPolicy => 8
    case RecoverJournal(_) => 7
    case RecoverRead => 6
    case RecoverWrite(_) => 5
    case RecoverDrop => 4
    case RecoverDiscard(_) => 5
    case RecoverClear => 4
  }

  lemma PublishingDescends(w: World, pid: nat, pc: Pc, o: Outcome)
    requires Owns(w, pc, pid) && Publishing(pc)
    ensures Rank(Advance(w, pid, pc, o).pc) < Rank(pc)
  {
  }

  lemma RecoveringDescends(w: World, pid: nat, pc: Pc, o: Outcome)
    requires Owns(w, pc, pid) && Recovering(pc)
    ensures Rank(Advance(w, pid, pc, o).pc) < Rank(pc)
  {
  }

  lemma Descends(w: World, pid: nat, pc: Pc, o: Outcome)
    requires Owns(w, pc, pid) && !pc.Idle?
    ensures Rank(Advance(w, pid, pc, o).pc) < Rank(pc)
  {
    if Publishing(pc) {
      PublishingDescends(w, pid, pc, o);
    } else if Recovering(pc) {
      RecoveringDescends(w, pid, pc, o);
    }
  }

  predicate OnlyActsOf(events: seq<Event>, pid: nat) {
    forall e <- events :: e.Act? && e.pid == pid
  }

  /** Whatever fails, a process that keeps running is idle within sixteen primitives and
      then owns neither lock: every exit of every task releases both. */
  lemma {:induction false} EveryExitReleases(s: System, pid: nat, events: seq<Event>)
    requires LocksAgree(s) && pid < |s.procs| && OnlyActsOf(events, pid)
    ensures |Run(s, events).procs| == |s.procs| && LocksAgree(Run(s, events))
    ensures Run(s, events).procs[pid].Idle?
              || Rank(Run(s, events).procs[pid]) + |events| <= Rank(s.procs[pid])
    ensures |events| >= 16 ==>
      && Run(s, events).procs[pid].Idle?
      && Run(s, events).world.localityOwner != Some(pid)
      && Run(s, events).world.policyOwner != Some(pid)
  {
    RunKeepsLocks(s, events);
    if events != [] {
      var before := Run(s, events[..|events| - 1]);
      var e := events[|events| - 1];
      EveryExitReleases(s, pid, events[..|events| - 1]);
      assert e in events;
      var pc := before.procs[pid];
      assert Owns(before.world, pc, pid);
      if !pc.Idle? && !e.outcome.Crash? {
        Descends(before.world, pid, pc, e.outcome);
      }
    }
    assert Owns(Run(s, events).world, Run(s, events).procs[pid], pid);
  }
}
