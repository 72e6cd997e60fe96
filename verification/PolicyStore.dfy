/** The platform's persistence boundary for the temporal policy.

    A store is either private to its process or shared: then every call is a primitive of that
    process in the running system, and other processes act before it. A load or a write may
    fail; a write is all or nothing and mirrors two desktop keys; an unlink that fails may
    already have removed the name. */
module PolicyStore {
  import opened Optional
  import opened Temporal
  import opened Disk
  import opened Protocol
  import opened Locks
  import opened Interference

  datatype LockCall = Begun | Ended

  predicate Alternating(calls: seq<LockCall>) {
    forall i | 0 <= i < |calls| :: calls[i] == (if i % 2 == 0 then Begun else Ended)
  }

  // ----- Program points around a call of the store

  function AfterRequest(t: Task, ok: bool): Pc {
    if ok then Load(t)
    else if t.SelectPlace? then Discard(t, false)
    else if NeedsLocality(t) then Unlock(t, true, false)
    else Idle
  }

  predicate ReadsPolicy(pc: Pc) {
    pc.Load? || pc.Survey? || pc.RecoverPolicy?
  }

  function AfterPolicyRead(pc: Pc, base: Option<Base>): Pc {
    match pc
    case Load(t) =>
      if base.Some? && !t.Reject? then
        (if t.Batch? && TargetOf(t).Some? then Stage(t, base) else Save(t, base.value))
      else if t.SelectPlace? then Discard(t, true)
      else Unlock(t, NeedsLocality(t), true)
    case Survey(t) =>
      if base.Some? then SurveyMeta(t, base.value.policy.place) else Unlock(t, true, false)
    case RecoverPolicy =>
      if base.Some? then RecoverJournal(base.value.policy.place) else Unlock(Recover, true, false)
    case _ => pc
  }

  /** The process is about to publish `p`, or to put it back. */
  predicate WritesPolicy(pc: Pc, p: Policy) {
    || (pc.Save? && p == Candidate(pc.task, pc.base))
    || (pc.Rollback? && pc.base.found && p == pc.base.policy)
  }

  predicate RemovesPolicy(pc: Pc) {
    pc.Rollback? && !pc.base.found
  }

  function AfterPolicyWrite(pc: Pc, ok: bool): Pc
    requires pc.Save? || pc.Rollback?
  {
    var t := pc.task;
    if pc.Save? && ok then
      (if PairWriter(t) then Publish(t, pc.base) else Unlock(t, NeedsLocality(t), true))
    else if TargetOf(t).Some? && (pc.Save? || ok) then Discard(t, true)
    else Unlock(t, NeedsLocality(t), true)
  }

  predicate ReleasesPolicy(pc: Pc) {
    (pc.Unlock? && pc.policy) || (pc.Discard? && pc.task.SelectPlace? && pc.locked)
  }

  function AfterRelease(pc: Pc): Pc
    requires ReleasesPolicy(pc)
  {
    if pc.Discard? then Discard(pc.task, false)
    else if pc.locality then Unlock(pc.task, true, false)
    else Idle
  }

  // ----- What the other processes leave alone

  predicate SameFiles(d: Disk, d': Disk) {
    d'.metadata == d.metadata && d'.journal == d.journal
  }

  predicate SamePolicy(d: Disk, d': Disk) {
    d'.policy == d.policy && d'.seed == d.seed
  }

  /** Whoever holds the locality lock finds metadata and journal as it left them. */
  predicate LocalityKept(pc: Pc, d: Disk, d': Disk) {
    HoldsLocality(pc) ==> SameFiles(d, d')
  }

  predicate PlaceKept(pc: Pc, d: Disk, d': Disk) {
    HoldsLocality(pc) ==> Effective(d').place == Effective(d).place
  }

  class Store {
    const process: Process?  // null for a private store
    const locking: bool      // begin_update and end_update are supplied
    const clearing: bool     // clear is supplied
    var own: File<Policy>    // the document of a private store
    var ownSeed: Seed
    var held: bool
    ghost var holder: object?
    ghost var calls: seq<LockCall>
    /** What a load yielded at the moment the lock was last granted. */
    ghost var granted: Base
    /** Calls of a private store that failed. */
    ghost var ownFailures: nat

    /** Calls so far that failed or found the lock taken. */
    ghost function Failures(): nat
      reads this, process
    {
      if process == null then ownFailures else process.failures
    }

    /** A call that does not succeed has met a failure. */
    twostate predicate Excused(ok: bool)
      reads this, process
    {
      Failures() >= old(Failures()) && (ok || Failures() > old(Failures()))
    }

    /** Exactly a call that does not succeed is counted as a failure. */
    twostate predicate Counts(ok: bool)
      reads this, process
    {
      Failures() == old(Failures()) + (if ok then 0 else 1)
    }

    function File(): File<Policy>
      reads this, process
    {
      if process == null then own else process.Disk().policy
    }

    function SeedNow(): Seed
      reads this, process
    {
      if process == null then ownSeed else process.Disk().seed
    }

    /** What a load yields now. */
    function Current(): Base
      reads this, process
    {
      if File().Doc? then Base(File().value, true) else Base(Fallback(SeedNow()), false)
    }

    /** The lock calls so far alternate, and the last one says whether the lock is held; a
        shared store holds it exactly when its process does. */
    ghost predicate Valid()
      reads this, process
    {
      && Alternating(calls)
      && (held <==> |calls| % 2 == 1) && (held <==> holder != null)
      && (process == null ==> own.Doc? ==> Stored(own.value) == own.value)
      && (process != null ==>
            locking && clearing && process.Valid() && (held <==> HoldsPolicy(process.At())))
    }

    constructor (process: Process?, seed: Seed, locking: bool, clearing: bool, own: File<Policy>)
      requires own.Doc? ==> Stored(own.value) == own.value
      requires process != null ==> locking && clearing && process.Valid() && process.At().Idle?
      ensures Valid() && holder == null && calls == []
      ensures this.process == process && this.locking == locking && this.clearing == clearing
      ensures this.own == own && ownSeed == seed
    {
      this.process, this.locking, this.clearing := process, locking, clearing;
      this.own, ownSeed, held, holder, calls := own, seed, false, null, [];
      granted, ownFailures := Base(Fallback(seed), false), 0;
    }

    // ----- The calls of a shared store

    method SharedRequest() returns (ok: bool)
      requires process != null && process.Valid() && process.At().WantPolicy?
      modifies process
      ensures process.Valid() && process.At() == AfterRequest(old(process.At()).task, ok)
      ensures ok ==> HoldsPolicy(process.At())
      ensures process.Counts(ok)
      ensures LocalityKept(old(process.At()), old(process.Disk()), process.Disk())
      ensures PlaceKept(old(process.At()), old(process.Disk()), process.Disk())
    {
      var o, w := process.Call(true);
      ok := process.At().Load?;
    }

    method SharedLoad() returns (base: Option<Base>)
      requires process != null && process.Valid()
      modifies process
      ensures process.Valid() && process.At() == AfterPolicyRead(old(process.At()), base)
      ensures base.Some? ==> base.value == Loaded(process.Disk())
      ensures process.Counts(base.Some?)
      ensures LocalityKept(old(process.At()), old(process.Disk()), process.Disk())
      ensures PlaceKept(old(process.At()), old(process.Disk()), process.Disk())
      ensures HoldsPolicy(old(process.At())) ==> SamePolicy(old(process.Disk()), process.Disk())
      ensures HoldsLocality(old(process.At())) ==>
        process.system.world.recoveries == old(process.system.world.recoveries)
    {
      if ReadsPolicy(process.At()) {
        var o, w := process.Call(true);
        base := if o.Ok? then Some(Loaded(process.Disk())) else None;
      } else {
        var ok := process.Attempt();
        base := if ok then Some(Loaded(process.Disk())) else None;
      }
    }

    method SharedSave(p: Policy) returns (ok: bool, ghost o: Outcome)
      requires process != null && process.Valid() && WritesPolicy(process.At(), p)
      modifies process
      ensures process.Valid() && process.At() == AfterPolicyWrite(old(process.At()), ok)
      ensures !o.Crash? && (ok <==> Saved(o))
      ensures process.Counts(ok)
      ensures process.Disk().policy == if ok then Doc(Stored(p)) else old(process.Disk()).policy
      ensures process.Disk().seed == if ok then Mirrored(old(process.Disk()).seed, p, o)
                                     else old(process.Disk()).seed
      ensures LocalityKept(old(process.At()), old(process.Disk()), process.Disk())
    {
      var outcome, w := process.Call(true);
      o, ok := outcome, Saved(outcome);
    }

    method SharedClear() returns (ok: bool)
      requires process != null && process.Valid() && RemovesPolicy(process.At())
      modifies process
      ensures process.Valid() && process.At() == AfterPolicyWrite(old(process.At()), ok)
      ensures process.Disk().policy.Missing?
              || (!ok && process.Disk().policy == old(process.Disk()).policy)
      ensures process.Counts(ok)
      ensures process.Disk().seed == old(process.Disk()).seed
      ensures LocalityKept(old(process.At()), old(process.Disk()), process.Disk())
    {
      var o, w := process.Call(true);
      ok := o.Ok?;
    }

    method SharedRelease()
      requires process != null && process.Valid() && ReleasesPolicy(process.At())
      modifies process
      ensures process.Valid() && process.At() == AfterRelease(old(process.At()))
      ensures process.Counts(true)
      ensures SamePolicy(old(process.Disk()), process.Disk())
      ensures LocalityKept(old(process.At()), old(process.Disk()), process.Disk())
    {
      var o, w := process.Call(true);
    }

    // ----- The platform's functions

    /** The call leaves alone what this process's locks protect. */
    twostate predicate Protects()
      requires process != null && old(process.Valid())
      reads process
    {
      && LocalityKept(old(process.At()), old(process.Disk()), process.Disk())
      && (HoldsPolicy(old(process.At())) ==> SamePolicy(old(process.Disk()), process.Disk()))
    }

    method Load() returns (base: Option<Base>)
      requires Valid()
      modifies `ownFailures, process
      ensures Valid() && Counts(base.Some?)
      ensures base.Some? ==> base.value == Current()
      ensures held || process == null ==> Current() == old(Current()) && File() == old(File())
      ensures process != null ==>
        && process.At() == AfterPolicyRead(old(process.At()), base) && Protects()
        && PlaceKept(old(process.At()), old(process.Disk()), process.Disk())
        && (HoldsLocality(old(process.At())) ==>
              process.system.world.recoveries == old(process.system.world.recoveries))
    {
      if process != null {
        base := SharedLoad();
      } else {
        var ok: bool := *;
        base := if ok then Some(Current()) else None;
        ownFailures := ownFailures + (if ok then 0 else 1);
      }
    }

    method Save(p: Policy) returns (ok: bool, ghost o: Outcome)
      requires Valid() && (process != null ==> WritesPolicy(process.At(), p))
      modifies `own, `ownSeed, `ownFailures, process
      ensures Valid() && !o.Crash? && (ok <==> Saved(o)) && Counts(ok)
      ensures File() == if ok then Doc(Stored(p)) else old(File())
      ensures SeedNow() == if ok then Mirrored(old(SeedNow()), p, o) else old(SeedNow())
      ensures process != null ==>
        && process.At() == AfterPolicyWrite(old(process.At()), ok)
        && LocalityKept(old(process.At()), old(process.Disk()), process.Disk())
    {
      if process != null {
        ok, o := SharedSave(p);
      } else {
        var clock: bool, seconds: bool := *, *;
        ok := *;
        var outcome := if !ok then Fail else if clock && seconds then Ok else Partly(clock, seconds);
        o := outcome;
        ownFailures := ownFailures + (if ok then 0 else 1);
        if ok {
          StoredIsStable(p);
          own, ownSeed := Doc(Stored(p)), Mirrored(ownSeed, p, outcome);
        }
      }
    }

    method Clear() returns (ok: bool)
      requires Valid() && clearing && (process != null ==> RemovesPolicy(process.At()))
      modifies `own, `ownFailures, process
      ensures Valid() && Counts(ok)
      ensures File().Missing? || (!ok && File() == old(File()))
      ensures SeedNow() == old(SeedNow())
      ensures process != null ==>
        && process.At() == AfterPolicyWrite(old(process.At()), ok)
        && LocalityKept(old(process.At()), old(process.Disk()), process.Disk())
    {
      if process != null {
        ok := SharedClear();
      } else {
        var gone: bool := *;
        ok := *;
        ownFailures := ownFailures + (if ok then 0 else 1);
        if ok || gone {
          own := Missing;
        }
      }
    }

    /** A try-lock: busy when any process, this one included, holds it. */
    method BeginUpdate(ghost who: object) returns (ok: bool)
      requires Valid() && locking && (process != null ==> process.At().WantPolicy?)
      modifies `held, `holder, `calls, `granted, `ownFailures, process
      ensures Valid() && Counts(ok)
      ensures ok ==>
        old(holder) == null && holder == who && calls == old(calls) + [Begun] && granted == Current()
      ensures !ok ==>
        holder == old(holder) && calls == old(calls) && held == old(held) && granted == old(granted)
      ensures process != null ==>
        && process.At() == AfterRequest(old(process.At()).task, ok) && Protects()
        && PlaceKept(old(process.At()), old(process.Disk()), process.Disk())
    {
      if process != null {
        ok := SharedRequest();
      } else {
        ok := *;
        ok := ok && !held;
        ownFailures := ownFailures + (if ok then 0 else 1);
      }
      if ok {
        held, holder, calls, granted := true, who, calls + [Begun], Current();
      }
    }

    /** The program gives up before it asks; to its process this is a refused request. */
    method Forgo()
      requires Valid() && process != null && process.At().WantPolicy?
      modifies process
      ensures Valid() && process.At() == AfterRequest(old(process.At()).task, false)
      ensures Counts(true)
      ensures LocalityKept(old(process.At()), old(process.Disk()), process.Disk())
      ensures PlaceKept(old(process.At()), old(process.Disk()), process.Disk())
    {
      var o, w := process.Call(false);
    }

    /** Only the holder may call this, once for every successful acquisition. */
    method EndUpdate(ghost who: object)
      requires Valid() && locking && holder == who
      requires process != null ==> ReleasesPolicy(process.At())
      modifies `held, `holder, `calls, process
      ensures Valid() && holder == null && calls == old(calls) + [Ended] && Counts(true)
      ensures File() == old(File()) && SeedNow() == old(SeedNow())
      ensures process != null ==> process.At() == AfterRelease(old(process.At())) && Protects()
    {
      if process != null {
        SharedRelease();
      }
      held, holder, calls := false, null, calls + [Ended];
    }
  }
}
