/** Runs that show where the unconditional claims fail, each as a family over all inputs,
    and the exact condition under which the failing step is harmless. */
module Counterexamples {
  import opened Optional
  import opened Temporal
  import opened Disk
  import opened Protocol
  import opened Trail
  import opened CrashAtomicity
  import opened DesktopKeys

  predicate LocksFree(w: World) {
    w.localityOwner.None? && w.policyOwner.None?
  }

  /** The trail of one finished or dead process that found both locks free. */
  predicate Over(tr: Trail, w: World) {
    Faithful(tr) && tr.world == w && tr.at.pc.Idle? && LocksFree(tr.at.world)
  }

  /** A panel process takes its locks and stages `b`. */
  lemma SelectAndStage(w: World, b: Metadata) returns (tr: Trail)
    requires LocksFree(w) && !w.disk.metadata.Invalid? && ValidRecord(b)
    ensures Faithful(tr) && tr.world == w && tr.task == SelectPlace(b)
    ensures tr.at.pc == WantPolicy(tr.task)
    ensures tr.at.world.disk == w.disk.(journal := Doc(b))
    ensures tr.at.world.localityOwner == Some(0) && tr.at.world.policyOwner.None?
  {
    tr := Fresh(w, SelectPlace(b));
    tr := BeginOn(tr, Ok);
    tr := InspectOn(tr, Ok);
    tr := StageOn(tr, Ok);
  }

  /** A panel process selects `b`, publishes the policy and dies. */
  lemma SelectThenDie(w: World, b: Metadata) returns (tr: Trail)
    requires LocksFree(w) && !w.disk.metadata.Invalid? && ValidRecord(b)
    ensures Over(tr, w) && tr.task == SelectPlace(b)
    ensures Effective(tr.at.world.disk).place == StoredPlace(Location(true, b.latitude, b.longitude))
    ensures tr.at.world.disk.metadata == w.disk.metadata && tr.at.world.disk.journal == Doc(b)
  {
    tr := SelectAndStage(w, b);
    tr := WantPolicyOn(tr, Ok);
    tr := LoadOn(tr, Ok);
    SingleEdit(SetPlace(b.latitude, b.longitude), tr.at.pc.base.policy);
    tr := SaveOn(tr, Ok);
    tr := CrashOn(tr);
  }

  /** A panel process stages `c`, cannot take the policy lock, and discards its journal. The
      pair survives exactly when it did not depend on an earlier journal. */
  lemma SelectAndFail(w: World, c: Metadata) returns (tr: Trail)
    requires LocksFree(w) && !w.disk.metadata.Invalid? && ValidRecord(c)
    ensures Over(tr, w) && tr.task == SelectPlace(c)
    ensures
      Coherent(Recovered(tr.at.world.disk)) <==>
        Coherent(w.disk) || !Effective(w.disk).place.configured
  {
    tr := SelectAndStage(w, c);
    tr := WantPolicyOn(tr, Fail);
    tr := DiscardOn(tr, Ok);
    tr := UnlockOn(tr, Ok);
    RecoveredIsCoherent(tr.at.world.disk);
  }

  /** A command line that clears the location publishes the policy. */
  lemma ClearAndSave(w: World) returns (tr: Trail)
    requires LocksFree(w)
    ensures Faithful(tr) && tr.world == w && tr.task == Batch([Unplace])
    ensures tr.at.pc == Publish(tr.task, Loaded(w.disk))
    ensures var p := Apply(Unplace, Effective(w.disk));
            tr.at.world.disk
              == w.disk.(policy := Doc(Stored(p)), seed := Mirrored(w.disk.seed, p, Ok))
    ensures tr.at.world.localityOwner == Some(0) && tr.at.world.policyOwner == Some(0)
  {
    LastMoveWins([Unplace], Effective(w.disk));
    SingleEdit(Unplace, Effective(w.disk));
    tr := Fresh(w, Batch([Unplace]));
    tr := BeginOn(tr, Ok);
    tr := WantPolicyOn(tr, Ok);
    tr := LoadOn(tr, Ok);
    tr := SaveOn(tr, Ok);
  }

  lemma ClearThenDie(w: World) returns (tr: Trail)
    requires LocksFree(w)
    ensures Over(tr, w) && tr.task == Batch([Unplace])
    ensures !Effective(tr.at.world.disk).place.configured
    ensures tr.at.world.disk.metadata == w.disk.metadata
    ensures tr.at.world.disk.journal == w.disk.journal
  {
    tr := ClearAndSave(w);
    tr := CrashOn(tr);
  }

  /** A clear whose unlink reports failure after removing the record, undone afterwards. */
  lemma ClearThenRollBack(w: World) returns (tr: Trail)
    requires LocksFree(w) && w.disk.policy.Doc? && Canonical(w.disk)
    ensures Over(tr, w) && tr.task == Batch([Unplace])
    ensures tr.at.world.disk.metadata.Missing? && tr.at.world.disk.policy == w.disk.policy
  {
    LastMoveWins([Unplace], Effective(w.disk));
    tr := ClearAndSave(w);
    tr := PublishOn(tr, FailGone);
    tr := RollbackOn(tr, Ok);
    tr := UnlockOn(tr, Ok);
    tr := UnlockOn(tr, Ok);
  }

  /** Reconciliation publishes a reference coordinate over an unconfigured policy. With no
      journal left, the pair is recoverable exactly when the metadata is absent or near. */
  lemma FollowReference(w: World, reference: Location) returns (tr: Trail)
    requires LocksFree(w) && !Effective(w.disk).place.configured && w.disk.journal.Missing?
    ensures Over(tr, w) && Proper(tr.task) && NeedsLocality(tr.task)
    ensures
      Coherent(Recovered(tr.at.world.disk)) <==>
        Paired(StoredPlace(reference.(configured := true)), w.disk.metadata)
  {
    tr := WantReference(w, reference);
    tr := WantPolicyOn(tr, Ok);
    tr := LoadOn(tr, Ok);
    SingleEdit(SetPlace(reference.latitude, reference.longitude), tr.at.pc.base.policy);
    tr := SaveOn(tr, Ok);
    tr := UnlockOn(tr, Ok);
    tr := UnlockOn(tr, Ok);
    RecoveredIsCoherent(tr.at.world.disk);
  }

  lemma WantReference(w: World, reference: Location) returns (tr: Trail)
    requires LocksFree(w) && !Effective(w.disk).place.configured
    ensures Faithful(tr) && tr.world == w && tr.at.pc == WantPolicy(tr.task)
    ensures tr.task == FollowZone(Some(reference), true, None, None, false)
    ensures tr.at.world.disk == w.disk
    ensures tr.at.world.localityOwner == Some(0) && tr.at.world.policyOwner.None?
  {
    tr := Fresh(w, FollowZone(Some(reference), true, None, None, false));
    tr := BeginOn(tr, Ok);
    tr := SurveyOn(tr, Ok);
    tr := SurveyMetaOn(tr, Ok);
  }

  /** A command line stages its record and publishes; the commit fails and is rolled back. */
  lemma SetThenRollBack(w: World, es: seq<Edit>) returns (tr: Trail)
    requires LocksFree(w) && !w.disk.policy.Doc?
    requires TargetOf(Batch(es)).Some? && ValidRecord(TargetOf(Batch(es)).value)
    ensures Over(tr, w) && tr.task == Batch(es)
    ensures tr.at.world.disk.policy.Missing?
    ensures tr.at.world.disk.seed == Mirrored(w.disk.seed, ApplyAll(es, Effective(w.disk)), Ok)
  {
    tr := Fresh(w, Batch(es));
    tr := BeginOn(tr, Ok);
    tr := WantPolicyOn(tr, Ok);
    tr := LoadOn(tr, Ok);
    tr := StageOn(tr, Ok);
    tr := SaveOn(tr, Ok);
    tr := PublishOn(tr, Fail);
    tr := RollbackOn(tr, Ok);
    tr := FinishDiscard(tr);
  }

  lemma FinishDiscard(tr: Trail) returns (r: Trail)
    requires Faithful(tr) && tr.at.pc == Discard(tr.task, true) && tr.task.Batch?
    requires tr.at.world.localityOwner == Some(0) && tr.at.world.policyOwner == Some(0)
    ensures Extends(r, tr) && r.at.pc.Idle? && LocksFree(r.at.world)
    ensures r.at.world.disk.policy == tr.at.world.disk.policy
    ensures r.at.world.disk.seed == tr.at.world.disk.seed
  {
    r := DiscardOn(tr, Ok);
    r := UnlockOn(r, Ok);
    r := UnlockOn(r, Ok);
  }

  // ----- The runs

  /** Starting a task and acting alone, as a run of the whole system. */
  lemma AsRun(s: System, pid: nat, t: Task, outs: seq<Outcome>) returns (events: seq<Event>)
    requires pid < |s.procs| && s.procs[pid].Idle? && Proper(t)
    ensures
      var m := Alone(s.world, pid, Entry(t), outs);
      Run(s, events) == System(m.world, s.procs[pid := m.pc])
  {
    var begun := Step(s, Start(pid, t));
    assert [Start(pid, t)][..0] == [];
    assert Run(s, [Start(pid, t)]) == begun;
    AloneIsRun(begun, pid, outs);
    RunInTwo(s, [Start(pid, t)], Acts(pid, outs));
    events := [Start(pid, t)] + Acts(pid, outs);
  }

  /** Without an intervening recovery, a second selection overwrites the journal of a crashed
      one and then drops it: for every published place `b` that the old record does not
      match, there is a run after which no recovery makes the pair coherent. */
  lemma OverwrittenJournal(s: System, b: Metadata, c: Metadata) returns (events: seq<Event>)
    requires Initial(s) && |s.procs| == 1 && Coherent(s.world.disk)
    requires s.world.disk.metadata.Doc? && ValidRecord(b) && ValidRecord(c)
    requires !Matches(StoredPlace(Location(true, b.latitude, b.longitude)),
                      s.world.disk.metadata.value)
    ensures
      var w := Run(s, events).world;
      LocksFree(w) && !Coherent(w.disk) && !Coherent(Recovered(w.disk))
  {
    assert s.procs[0] in s.procs;
    var crashed := SelectThenDie(s.world, b);
    var failed := SelectAndFail(crashed.at.world, c);
    events := InTurn(s, crashed, failed);
    RecoveredIsIdempotent(failed.at.world.disk);
  }

  /** Two trails of the one process, one after the other, as a run of the whole system. */
  lemma InTurn(s: System, first: Trail, second: Trail) returns (events: seq<Event>)
    requires |s.procs| == 1 && s.procs[0].Idle? && Proper(first.task) && Proper(second.task)
    requires Over(first, s.world) && Over(second, first.at.world)
    ensures Run(s, events).world == second.at.world
  {
    var one := AsRun(s, 0, first.task, first.outs);
    var two := AsRun(Run(s, one), 0, second.task, second.outs);
    RunInTwo(s, one, two);
    events := one + two;
  }

  /** Reconciliation breaks the pair in the same way after a crashed clear: it never stages,
      so the hypothesis has to cover it as well. */
  lemma ReferenceAfterCrashedClear(s: System, reference: Location) returns (events: seq<Event>)
    requires Initial(s) && |s.procs| == 1 && Coherent(s.world.disk)
    requires s.world.disk.journal.Missing? && s.world.disk.metadata.Doc?
    requires !Matches(StoredPlace(reference.(configured := true)), s.world.disk.metadata.value)
    ensures LocksFree(Run(s, events).world)
    ensures !Coherent(Recovered(Run(s, events).world.disk))
  {
    assert s.procs[0] in s.procs;
    LastMoveWins([Unplace], Fallback(s.world.disk.seed));
    var crashed := ClearThenDie(s.world);
    var followed := FollowReference(crashed.at.world, reference);
    events := InTurn(s, crashed, followed);
  }

  /** A clear whose unlink reports failure after removing the record, and whose policy is
      then restored, ends without a crash on neither the old pair nor the new one. */
  lemma ClearLosesRecord(s: System) returns (events: seq<Event>)
    requires Initial(s) && |s.procs| == 1 && Coherent(s.world.disk)
    requires s.world.disk.policy.Doc? && s.world.disk.metadata.Doc?
    ensures
      var w := Run(s, events).world;
      && LocksFree(w) && Effective(w.disk) == Effective(s.world.disk)
      && w.disk.metadata.Missing?
      && !OldPair(w.disk, Snapshot(s.world.disk)) && !NewPair(w.disk, Batch([Unplace]))
  {
    assert s.procs[0] in s.procs;
    LastMoveWins([Unplace], Fallback(s.world.disk.seed));
    var undone := ClearThenRollBack(s.world);
    events := AsRun(s, 0, undone.task, undone.outs);
  }

  /** Where no document existed, a command line that was rolled back with every report of
      success leaves another effective policy, for every batch that sets a location and whose
      clock or seconds differ from the desktop's. */
  lemma RollbackLeavesKeys(s: System, es: seq<Edit>) returns (events: seq<Event>)
    requires Initial(s) && |s.procs| == 1 && !s.world.disk.policy.Doc?
    requires TargetOf(Batch(es)).Some? && ValidRecord(TargetOf(Batch(es)).value)
    requires !Steady(s.world.disk.seed, ApplyAll(es, Effective(s.world.disk)))
    ensures
      var w := Run(s, events).world;
      && LocksFree(w) && w.disk.policy.Missing? && Effective(w.disk) != Effective(s.world.disk)
  {
    assert s.procs[0] in s.procs;
    var undone := SetThenRollBack(s.world, es);
    events := AsRun(s, 0, undone.task, undone.outs);
    SteadyIsExact(s.world.disk.seed, ApplyAll(es, Effective(s.world.disk)), Ok);
    FallbackTellsSeeds(undone.at.world.disk.seed, s.world.disk.seed);
  }

  /** For instance `--seconds on --location 1 2` on a desktop that shows no seconds. */
  lemma SecondsStayOn(s: System) returns (events: seq<Event>)
    requires Initial(s) && |s.procs| == 1 && s.world.disk.policy.Missing?
    requires s.world.disk.seed == Seed("standard-24", false, true)
    ensures Run(s, events).world.disk.policy.Missing?
    ensures !Effective(s.world.disk).seconds && Effective(Run(s, events).world.disk).seconds
  {
    var es := [SetSeconds(true), SetPlace(1.0, 2.0)];
    assert es[..1] == [SetSeconds(true)];
    SingleEdit(SetSeconds(true), Effective(s.world.disk));
    assert s.procs[0] in s.procs;
    var undone := SetThenRollBack(s.world, es);
    events := AsRun(s, 0, undone.task, undone.outs);
  }
}
