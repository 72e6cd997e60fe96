/** A crashed location change and the recoveries that follow it, as one run. */
module CrashRecovery {
  import opened Optional
  import opened Temporal
  import opened Disk
  import opened Protocol
  import opened Locks
  import opened Knowledge
  import opened CrashAtomicity
  import opened RecoveryRuns

  /** A location change that began on a clean disk dies at any point. Whatever recoveries and
      field publications follow, interleaved, failing and crashing in any way: once one
      recovery has reported success, the disk holds the old pair or the new pair, except
      exactly when the change had already lost the record. */
  lemma CrashThenRecovery(s: System, events: seq<Event>, pid: nat, more: seq<Event>)
    requires Initial(s) && pid < |Run(s, events).procs|
    requires
      var now := Run(s, events);
      && Changing(now.procs[pid]) && now.world.origin.clean
      && (forall i | 0 <= i < |now.procs| && i != pid :: Bystander(now.procs[i]))
    requires OnlyRecoveries(more)
    requires
      var crashed := Step(Run(s, events), Act(pid, Crash));
      Run(crashed, more).world.recoveries > crashed.world.recoveries
    ensures
      var now := Run(s, events);
      var disk := Run(Step(now, Act(pid, Crash)), more).world.disk;
      (OldPair(disk, now.world.origin) || NewPair(disk, now.procs[pid].task))
        <==> !LostRecord(now.world.origin)
  {
    var now := Run(s, events);
    var crashed := Step(now, Act(pid, Crash));
    CrashLeavesOldOrNew(s, events, pid);
    InitialIsInformed(s);
    RunKeepsInformed(s, events);
    StepKeepsInformed(now, Act(pid, Crash));
    RecoveryConverges(crashed, more);
    PairDecides(Run(crashed, more).world.disk, Recovered(crashed.world.disk),
                now.world.origin, now.procs[pid].task);
  }

  lemma PairDecides(d: Disk, e: Disk, origin: Origin, t: Task)
    requires PairOf(d) == PairOf(e)
    ensures OldPair(d, origin) == OldPair(e, origin) && NewPair(d, t) == NewPair(e, t)
  {
  }
}
