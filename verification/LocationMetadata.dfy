/** Durable locality metadata: the committed record, its journal and the locality lock.

    Every file access is the next primitive of its process in the running system, so what this
    code does is what the step programs do, whatever other processes do in between. */
module LocationMetadata {
  import opened Optional
  import opened Temporal
  import opened Disk
  import opened Protocol
  import opened Locks
  import opened Interference
  import opened PolicyStore
  import opened RecoveryRuns

  datatype Status = Loaded(record: Metadata) | LoadMissing | LoadInvalid | LoadIoError

  /** The status of a read that was possible. */
  function StatusOf(file: File<Metadata>): Status {
    match file
    case Missing => LoadMissing
    case Invalid => LoadInvalid
    case Doc(m) => Loaded(m)
  }

  predicate Reads(status: Status, file: File<Metadata>) {
    status.LoadIoError? || status == StatusOf(file)
  }

  // ----- Program points around a file access

  function AfterInspection(t: Task, status: Status): Pc {
    if status.LoadIoError? || status.LoadInvalid? then Unlock(t, true, false) else Stage(t, None)
  }

  /** The record a reader goes by after a read with this status. */
  function KnownFrom(status: Status, cached: Option<Metadata>): Option<Metadata> {
    match status
    case Loaded(m) => Some(m)
    case LoadMissing => None
    case _ => cached
  }

  function AfterSurvey(pc: Pc, status: Status): Pc
    requires pc.SurveyMeta? ==> pc.task.FollowZone?
  {
    if pc.SurveyMeta? then ZoneDecision(pc.task, pc.seen, KnownFrom(status, pc.task.cached)) else pc
  }

  predicate RereadsJournal(pc: Pc) {
    pc.RecoverRead? || (pc.Publish? && TargetOf(pc.task).Some?)
  }

  function AfterJournalReread(pc: Pc, status: Status): Pc
    requires RereadsJournal(pc)
  {
    match pc
    case Publish(t, base) =>
      if status.Loaded? then WriteMeta(t, base, status.record) else Rollback(t, base)
    case RecoverRead =>
      if status.Loaded? then RecoverWrite(status.record) else Unlock(Recover, true, false)
  }

  function AfterLeftover(seen: Location, status: Status): Pc {
    match status
    case LoadIoError => Unlock(Recover, true, false)
    case LoadMissing => if seen.configured then Unlock(Recover, true, false) else RecoverClear
    case LoadInvalid => RecoverDiscard(seen)
    case Loaded(m) => if Matches(seen, m) then RecoverRead else RecoverDiscard(seen)
  }

  predicate WritesMetadata(pc: Pc, m: Metadata) {
    (pc.WriteMeta? || pc.SaveZone? || pc.RecoverWrite?) && pc.record == m
  }

  function AfterMetadataWrite(pc: Pc, ok: bool): Pc
    requires pc.WriteMeta? || pc.SaveZone? || pc.RecoverWrite?
  {
    match pc
    case WriteMeta(t, base, _) => if ok then DropJournal(t) else Rollback(t, base)
    case SaveZone(t, _, _) => Unlock(t, true, false)
    case RecoverWrite(_) => if ok then RecoverDrop else Unlock(Recover, true, false)
  }

  function AfterStaging(t: Task, early: Option<Base>, ok: bool): Pc {
    if !ok then Unlock(t, true, early.Some?)
    else if early.Some? then Save(t, early.value)
    else WantPolicy(t)
  }

  predicate RemovesJournal(pc: Pc) {
    || pc.DropJournal? || pc.RecoverDrop? || pc.RecoverDiscard?
    || (pc.Discard? && !(pc.task.SelectPlace? && pc.locked))
  }

  function AfterDiscard(pc: Pc, ok: bool): Pc
    requires RemovesJournal(pc)
  {
    match pc
    case DropJournal(t) => Unlock(t, true, true)
    case Discard(t, locked) => Unlock(t, true, locked)
    case RecoverDrop => Unlock(Recover, true, false)
    case RecoverDiscard(seen) =>
      if ok && !seen.configured then RecoverClear else Unlock(Recover, true, false)
  }

  predicate RemovesMetadata(pc: Pc) {
    pc.RecoverClear? || (pc.Publish? && TargetOf(pc.task).None?)
  }

  function AfterClear(pc: Pc, ok: bool): Pc
    requires RemovesMetadata(pc)
  {
    match pc
    case Publish(t, base) => if ok then Unlock(t, true, true) else Rollback(t, base)
    case RecoverClear => Unlock(Recover, true, false)
  }

  class Files {
    const process: Process
    const store: Store
    var held: bool

    ghost predicate Valid()
      reads this, store, process
    {
      && store.process == process && store.Valid()
      && (held <==> HoldsLocality(process.At()))
    }

    constructor (store: Store, process: Process)
      requires store.process == process && store.Valid() && process.At().Idle?
      ensures Valid() && this.store == store && this.process == process && !held
    {
      this.store, this.process, held := store, process, false;
    }

    function Metadata(): File<Metadata>
      reads process
    {
      process.Disk().metadata
    }

    function Journal(): File<Metadata>
      reads process
    {
      process.Disk().journal
    }

    /** Successful recoveries in the run so far. */
    function Recoveries(): nat
      reads process
    {
      process.system.world.recoveries
    }

    /** What a file access under the locality lock leaves alone: the location, the policy if
        its lock is held, and where a recovery in progress will end. */
    twostate predicate Steady()
      requires old(process.Valid())
      reads process
    {
      && Effective(process.Disk()).place == old(Effective(process.Disk()).place)
      && (HoldsPolicy(old(process.At())) ==> SamePolicy(old(process.Disk()), process.Disk()))
      && (Recovering(old(process.At())) ==>
            PairOf(Recovered(process.Disk())) == PairOf(Recovered(old(process.Disk()))))
      && (Recoveries() > old(Recoveries()) ==> PairOf(process.Disk()) == PairOf(Recovered(process.Disk())))
    }

    lemma StepPursues(w0: World, w: World, pc: Pc, o: Outcome)
      requires Undisturbed(w0, w, pc) && Relies(w, pc, process.me) && HoldsLocality(pc)
      ensures
        var m := Advance(w, process.me, pc, o);
        Recovering(pc) ==>
          && PairOf(Recovered(m.world.disk)) == PairOf(Recovered(w0.disk))
          && (m.world.recoveries > w0.recoveries ==> Settled(m.world.disk))
    {
      GoalOfSamePair(w0.disk, w.disk);
      if Recovering(pc) {
        RecoveryKeepsGoal(w, process.me, pc, o);
      }
    }

    // ----- The locality lock

    method TransactionBegin() returns (ok: bool)
      requires Valid() && process.At().Begin?
      modifies `held, process
      ensures Valid() && held == ok && HoldsPolicy(process.At()) == false && process.Counts(ok)
      ensures process.At() == if ok then UnderLocality(old(process.At()).task) else Idle
    {
      var o, w := process.Call(!held);
      ok := !process.At().Idle?;
      held := ok;
    }

    method TransactionEnd()
      requires Valid() && process.At().Unlock? && process.At().locality && !process.At().policy
      modifies `held, process
      ensures Valid() && !held && process.At().Idle? && process.Counts(true)
      ensures SameFiles(old(process.Disk()), process.Disk())
      ensures Effective(process.Disk()).place == old(Effective(process.Disk()).place)
      ensures Recoveries() == old(Recoveries())
    {
      var o, w := process.Call(true);
      held := false;
    }

    // ----- File accesses

    /** Reads the committed record before a change. */
    method Inspect() returns (status: Status)
      requires Valid() && process.At().Inspect?
      modifies process
      ensures Valid() && Steady() && SameFiles(old(process.Disk()), process.Disk())
      ensures Reads(status, Metadata()) && process.Counts(!status.LoadIoError?)
      ensures process.At() == AfterInspection(old(process.At()).task, status)
    {
      var o, w := process.Call(true);
      status := if o.Ok? then StatusOf(Metadata()) else LoadIoError;
    }

    /** Reads the committed record; during reconciliation this is its next primitive. */
    method LoadCommitted() returns (status: Status)
      requires Valid() && HoldsLocality(process.At())
      requires process.At().SurveyMeta? ==> process.At().task.FollowZone?
      modifies process
      ensures Valid() && SameFiles(old(process.Disk()), process.Disk())
      ensures Effective(process.Disk()).place == old(Effective(process.Disk()).place)
      ensures Reads(status, Metadata()) && process.Counts(!status.LoadIoError?)
      ensures process.At() == AfterSurvey(old(process.At()), status)
    {
      if process.At().SurveyMeta? {
        var o, w := process.Call(true);
        status := if o.Ok? then StatusOf(Metadata()) else LoadIoError;
      } else {
        var ok := process.Attempt();
        status := if ok then StatusOf(Metadata()) else LoadIoError;
      }
    }

    /** Reads the journal back to commit its record. */
    method LoadJournal() returns (status: Status)
      requires Valid() && RereadsJournal(process.At())
      modifies process
      ensures Valid() && Steady() && SameFiles(old(process.Disk()), process.Disk())
      ensures Reads(status, Journal()) && process.Counts(!status.LoadIoError?)
      ensures status.Loaded? ==> ValidRecord(status.record)
      ensures process.At() == AfterJournalReread(old(process.At()), status)
      ensures Recoveries() == old(Recoveries())
    {
      var o, w := process.Call(true);
      status := if o.Ok? then StatusOf(Journal()) else LoadIoError;
      GoalOfSamePair(old(process.Disk()), process.Disk());
    }

    /** Reads the journal that an earlier change may have left. */
    method LoadLeftover() returns (status: Status)
      requires Valid() && process.At().RecoverJournal?
      modifies process
      ensures Valid() && Steady() && SameFiles(old(process.Disk()), process.Disk())
      ensures Reads(status, Journal()) && process.Counts(!status.LoadIoError?)
      ensures process.At() == AfterLeftover(old(process.At()).seen, status)
      ensures Recoveries() ==
        old(Recoveries())
        + (if status.LoadMissing? && old(process.At()).seen.configured then 1 else 0)
    {
      var o, w := process.Call(true);
      status := if o.Ok? then StatusOf(Journal()) else LoadIoError;
      GoalOfSamePair(old(process.Disk()), process.Disk());
      NothingToRecover(process.Disk());
    }

    lemma NothingToRecover(d: Disk)
      ensures d.journal.Missing? && Effective(d).place.configured ==> PairOf(d) == PairOf(Recovered(d))
    {
    }

    method Save(m: Metadata) returns (ok: bool)
      requires Valid() && WritesMetadata(process.At(), m)
      modifies process
      ensures Valid() && Steady() && process.Excused(ok || !ValidRecord(m))
      ensures (ok ==> ValidRecord(m)) && Journal() == old(Journal())
      ensures Metadata() == if ok then Doc(m) else old(Metadata())
      ensures process.At() == AfterMetadataWrite(old(process.At()), ok)
      ensures Recoveries() == old(Recoveries())
    {
      ghost var w0, pc := process.system.world, process.At();
      var o, w := process.Call(true);
      ok := o.Ok? && ValidRecord(m);
      StepPursues(w0, w, pc, o);
    }

    method Stage(m: Metadata) returns (ok: bool)
      requires Valid() && process.At().Stage? && TargetOf(process.At().task) == Some(m)
      modifies process
      ensures Valid() && Steady() && process.Excused(ok || !ValidRecord(m))
      ensures (ok ==> ValidRecord(m)) && Metadata() == old(Metadata())
      ensures Journal() == if ok then Doc(m) else old(Journal())
      ensures process.At() == AfterStaging(old(process.At()).task, old(process.At()).early, ok)
    {
      var o, w := process.Call(true);
      ok := o.Ok? && ValidRecord(m);
    }

    method DiscardStaged() returns (ok: bool)
      requires Valid() && RemovesJournal(process.At())
      modifies process
      ensures Valid() && Steady()
      ensures Metadata() == old(Metadata()) && process.Counts(ok)
      ensures Journal().Missing? || (!ok && Journal() == old(Journal()))
      ensures process.At() == AfterDiscard(old(process.At()), ok)
      ensures Recoveries() ==
        old(Recoveries()) + (if old(process.At()).RecoverDrop?
                                || (old(process.At()).RecoverDiscard? && ok && old(process.At()).seen.configured)
                             then 1 else 0)
    {
      ghost var w0, pc := process.system.world, process.At();
      var o, w := process.Call(true);
      ok := o.Ok?;
      StepPursues(w0, w, pc, o);
    }

    method Clear() returns (ok: bool)
      requires Valid() && RemovesMetadata(process.At())
      modifies process
      ensures Valid() && Steady()
      ensures Journal() == old(Journal()) && process.Counts(ok)
      ensures Metadata().Missing? || (!ok && Metadata() == old(Metadata()))
      ensures process.At() == AfterClear(old(process.At()), ok)
      ensures Recoveries() == old(Recoveries()) + (if old(process.At()).RecoverClear? && ok then 1 else 0)
    {
      ghost var w0, pc := process.system.world, process.At();
      var o, w := process.Call(true);
      ok := o.Ok?;
      StepPursues(w0, w, pc, o);
    }

    function AfterFinish(pc: Pc, ok: bool): Pc
      requires RereadsJournal(pc)
    {
      if pc.RecoverRead? then Unlock(Task.Recover, true, false)
      else if ok then Unlock(pc.task, true, true)
      else Rollback(pc.task, pc.base)
    }

    /** Commits the record that was reread and drops the journal. */
    method CommitRecord(m: Metadata) returns (ok: bool)
      requires Valid() && (process.At().WriteMeta? || process.At().RecoverWrite?)
      requires WritesMetadata(process.At(), m) && ValidRecord(m)
      modifies process
      ensures Valid() && Steady() && process.Excused(ok)
      ensures process.At() ==
        if old(process.At()).RecoverWrite? then Unlock(Task.Recover, true, false)
        else if ok then Unlock(old(process.At()).task, true, true)
        else Rollback(old(process.At()).task, old(process.At()).base)
      ensures ok ==>
        && Metadata() == Doc(m) && (Journal().Missing? || Journal() == old(Journal()))
      ensures !ok ==> SameFiles(old(process.Disk()), process.Disk())
      ensures Recoveries() == old(Recoveries()) + (if ok && old(process.At()).RecoverWrite? then 1 else 0)
    {
      ok := Save(m);
      if ok {
        var _ := DiscardStaged();
      }
    }

    /** Rereads the journal, commits its record and drops it; a failed drop is ignored. */
    method FinishStaged() returns (ok: bool)
      requires Valid() && RereadsJournal(process.At())
      modifies process
      ensures Valid() && Steady()
      ensures process.At() == AfterFinish(old(process.At()), ok)
      ensures process.Excused(ok || !old(Journal()).Doc?)
      ensures ok ==>
        && old(Journal()).Doc? && Metadata() == old(Journal())
        && (Journal().Missing? || Journal() == old(Journal()))
      ensures !ok ==> SameFiles(old(process.Disk()), process.Disk())
      ensures Recoveries() == old(Recoveries()) + (if ok && old(process.At()).RecoverRead? then 1 else 0)
    {
      var status := LoadJournal();
      if !status.Loaded? {
        return false;
      }
      ok := CommitRecord(status.record);
    }

    /** Asks the desktop for its keys, which may fail. */
    method ReadKeys() returns (ok: bool)
      requires Valid() && HoldsPolicy(process.At())
      modifies process
      ensures Valid() && process.At() == old(process.At()) && process.Counts(ok)
      ensures SamePolicy(old(process.Disk()), process.Disk())
      ensures HoldsLocality(process.At()) ==> SameFiles(old(process.Disk()), process.Disk())
    {
      ok := process.Attempt();
    }

    // ----- Recovery

    /** From the journal read to the point where only the lock is left to release. */
    method SettleLeftover(place: Location) returns (ok: bool)
      requires Valid() && process.At() == RecoverJournal(place)
      modifies process
      ensures Valid() && Steady() && process.At() == Unlock(Task.Recover, true, false)
      ensures process.Excused(ok)
      ensures Recoveries() == old(Recoveries()) + (if ok then 1 else 0)
    {
      ok := false;
      var staged := LoadLeftover();
      if staged.LoadIoError? {
        return;
      }
      if staged.Loaded? && Matches(place, staged.record) {
        ok := FinishStaged();
      } else if !staged.LoadMissing? {
        ok := DiscardStaged();
        if ok && !place.configured {
          ok := Clear();
        }
      } else if !place.configured {
        ok := Clear();
      } else {
        ok := true;
      }
    }

    /** Recovery's own reading of the policy, under the locality lock. */
    method LoadAuthority() returns (place: Option<Location>)
      requires Valid() && process.At().RecoverPolicy?
      modifies store`ownFailures, process
      ensures Valid() && SameFiles(old(process.Disk()), process.Disk())
      ensures Effective(process.Disk()).place == old(Effective(process.Disk()).place)
      ensures process.At() ==
        if place.Some? then RecoverJournal(place.value) else Unlock(Task.Recover, true, false)
      ensures process.Counts(place.Some?)
      ensures Recoveries() == old(Recoveries())
    {
      var base := store.Load();
      place := if base.Some? then Some(base.value.policy.place) else None;
    }

    /** From the lock just granted to the point where only its release is left. */
    method RecoverUnderLock() returns (ok: bool)
      requires Valid() && process.At().RecoverPolicy?
      modifies store`ownFailures, process
      ensures Valid() && process.At() == Unlock(Task.Recover, true, false) && process.Excused(ok)
      ensures PairOf(Recovered(process.Disk())) == PairOf(Recovered(old(process.Disk())))
      ensures ok ==> PairOf(process.Disk()) == PairOf(Recovered(process.Disk()))
      ensures Recoveries() == old(Recoveries()) + (if ok then 1 else 0)
    {
      ok := false;
      var authoritative := LoadAuthority();
      GoalOfSamePair(old(process.Disk()), process.Disk());
      if authoritative.Some? {
        ok := SettleLeftover(authoritative.value);
      }
    }

    /** Recovers an interrupted change. Every primitive is the one that the step program
        `Recover` performs next, the policy being read only under the lock. With `found` the
        world in which the lock was granted: whatever other processes do, the goal of recovery
        stays where it was then, and success has reached it. It succeeds unless one of its
        primitives fails or finds the lock taken. */
    method Recover() returns (ok: bool, ghost found: Option<World>)
      requires Valid() && process.At().Idle?
      modifies `held, store`ownFailures, process
      ensures Valid() && process.At().Idle? && !held
      ensures (ok ==> found.Some?) && process.Excused(ok)
      ensures found.Some? ==>
        && PairOf(Recovered(process.Disk())) == PairOf(Recovered(found.value.disk))
        && (ok ==> PairOf(process.Disk()) == PairOf(Recovered(found.value.disk)))
        && (ok <==> Recoveries() > found.value.recoveries)
    {
      process.Begin(Task.Recover);
      ok, found := false, None;
      var begun := TransactionBegin();
      if begun {
        found := Some(process.system.world);
        ok := RecoverUnderLock();
        ghost var settled := process.Disk();
        TransactionEnd();
        GoalOfSamePair(settled, process.Disk());
      }
    }
  }
}
