/** The panel's location commits: a chosen place and edited coordinates run the same
    two-file transaction, and reconciliation follows the system time zone. */
module LocationPanel {
  import opened Optional
  import opened Temporal
  import opened Disk
  import D = Disk
  import opened Protocol
  import opened Locks
  import opened Interference
  import opened PolicyStore
  import opened LocationMetadata
  import opened DateTimeModel
  import opened Unhindered

  class Panel {
    const files: Files
    const model: Model
    const process: Process
    /** The in-memory record, if there is one. */
    var record: Option<Metadata>
    /** The locality file changed and could not be read since. */
    var uncertain: bool
    /** The location is an approximation that follows the system time zone. */
    var follows: bool

    constructor (files: Files, model: Model)
      requires model.Valid() && files.Valid() && model.store == files.store
      ensures this.files == files && this.model == model && process == files.process && record.None?
      ensures Tied()
    {
      this.files, this.model, process := files, model, files.process;
      record, uncertain, follows := None, false, false;
    }

    /** Files and model are two views of one process. */
    ghost predicate Tied()
      reads this, files, model, files.store, process, model.tokens
    {
      && model.store == files.store && files.process == process
      && files.Valid() && model.Valid()
    }

    ghost predicate Ready()
      reads this, files, model, files.store, process, model.tokens
    {
      Tied() && model.token == null
    }

    /** The committed record, if the file holds one. */
    function OnDisk(): Option<Metadata>
      reads process
    {
      if process.Disk().metadata.Doc? then Some(process.Disk().metadata.value) else None
    }

    function Place(): Location
      reads process
    {
      Effective(process.Disk()).place
    }

    // ----- The steps of one location change

    /** Locks and rereads the committed record; an unreadable one ends the change. */
    method Open(target: Metadata) returns (ok: bool, previous: Option<Metadata>)
      requires Ready() && process.At().Idle?
      modifies files`held, process
      ensures Ready() && process.Excused(ok || process.Disk().metadata.Invalid?)
      ensures ok ==>
        previous == OnDisk() && process.At() == Protocol.Stage(SelectPlace(target), None)
      ensures !ok ==> process.At().Idle?
    {
      process.Begin(SelectPlace(target));
      ok, previous := false, None;
      var begun := files.TransactionBegin();
      if !begun {
        return;
      }
      var status := files.Inspect();
      ok := status.Loaded? || status.LoadMissing?;
      previous := if status.Loaded? then Some(status.record) else None;
      if !ok {
        files.TransactionEnd();
      }
    }

    /** Stages the new record, or gives the change up. */
    method Stage(target: Metadata) returns (ok: bool)
      requires Ready() && process.At() == Protocol.Stage(SelectPlace(target), None)
      modifies files`held, process
      ensures Ready() && process.Disk().metadata == old(process.Disk()).metadata
      ensures Place() == old(Place())
      ensures (ok ==> ValidRecord(target)) && process.Excused(ok || !ValidRecord(target))
      ensures if ok then process.At() == WantPolicy(SelectPlace(target))
                         && process.Disk().journal == Doc(target)
              else process.At().Idle?
    {
      ok := files.Stage(target);
      if !ok {
        files.TransactionEnd();
      }
    }

    /** Drops the journal and releases the locality lock. */
    method Abandon()
      requires Ready() && process.At().Discard? && process.At().task.SelectPlace? && !process.At().locked
      modifies files`held, process
      ensures Ready() && process.At().Idle? && process.Excused(true)
      ensures process.Disk().metadata == old(process.Disk()).metadata && Place() == old(Place())
    {
      var _ := files.DiscardStaged();
      files.TransactionEnd();
    }

    /** Publishes the policy and keeps its lock, or gives the whole change up. */
    method Reserve(target: Metadata, update: LocationUpdate) returns (ok: bool)
      requires Ready() && !update.active && process.At() == WantPolicy(SelectPlace(target))
      modifies model, model.store, update, files`held, process
      ensures Tied() && process.Disk().metadata == old(process.Disk()).metadata
      ensures model.tokens == old(model.tokens) + {update}
      ensures process.Excused(ok || !ValidCoordinates(target.latitude, target.longitude))
      ensures ok ==>
        && model.token == update && update.previous == model.store.granted
        && process.At() == Protocol.Publish(SelectPlace(target), update.previous)
        && process.Disk().journal == old(process.Disk()).journal
        && model.policy == update.previous.policy.(
             place := Location(true, target.latitude, target.longitude))
        && process.Disk().policy == Doc(Stored(model.policy))
      ensures !ok ==>
        && Ready() && process.At().Idle?
        && model.policy == old(model.policy) && model.present == old(model.present)
    {
      ghost var t := SelectPlace(target);
      ok := model.BeginLocationUpdate(true, target.latitude, target.longitude, update, t);
      if !ok {
        if process.At().WantPolicy? {
          model.store.Forgo();
        }
        Abandon();
      }
    }

    /** Closes a change whose metadata could not be committed: the policy and its provenance
        are restored and the journal dropped, or both are left for recovery. `settled` is the
        disk when the policy lock was given back. */
    method Undo(target: Metadata, update: LocationUpdate) returns (restored: bool, ghost settled: Disk)
      requires Tied() && model.token == update
      requires process.At() == Rollback(SelectPlace(target), update.previous)
      modifies model, model.store`own, model.store`ownSeed, model.store`held, model.store`holder
      modifies model.store`calls, model.store`ownFailures, update, files`held, process
      ensures Ready() && process.At().Idle?
      ensures process.Disk().metadata == old(process.Disk()).metadata == settled.metadata
      ensures process.Excused(restored)
      ensures restored ==>
        D.Loaded(settled) == old(update.previous) == Base(model.policy, model.present)
      ensures !restored ==>
        settled.policy == old(process.Disk()).policy
        || (!old(update.previous).found && settled.policy.Missing?)
    {
      restored := model.RollbackLocationUpdate(update, SelectPlace(target));
      settled := process.Disk();
      if restored {
        Abandon();
      } else {
        var _ := model.Reload();
        files.TransactionEnd();
      }
    }

    /** Commits the staged record under both locks, or undoes the change. */
    method Conclude(target: Metadata, update: LocationUpdate)
      returns (ending: Ending, ghost settled: Disk)
      requires Tied() && model.token == update
      requires process.At() == Protocol.Publish(SelectPlace(target), update.previous)
      requires process.Disk().journal == Doc(target)
      requires process.Disk().policy == Doc(Stored(model.policy))
      modifies model, model.store`own, model.store`ownSeed, model.store`held, model.store`holder
      modifies model.store`calls, model.store`ownFailures, update, files`held, process
      ensures Ready() && process.At().Idle? && !ending.Untouched?
      ensures process.Excused(ending.Committed?)
      ensures ending.Committed? ==>
        && model.policy == old(model.policy)
        && settled.policy == Doc(Stored(model.policy)) && settled.metadata == Doc(target)
        && process.Disk().metadata == Doc(target)
        && Place() == StoredPlace(model.policy.place)
      ensures !ending.Committed? ==>
        process.Disk().metadata == settled.metadata == old(process.Disk()).metadata
      ensures ending.Restored? ==>
        D.Loaded(settled) == old(update.previous) == Base(model.policy, model.present)
      ensures ending.LeftToRecovery? ==>
        settled.policy == old(process.Disk()).policy
        || (!old(update.previous).found && settled.policy.Missing?)
    {
      var committed := files.FinishStaged();
      if committed {
        settled := Finish(update);
        ending := Committed;
      } else {
        var restored;
        restored, settled := Undo(target, update);
        ending := if restored then Restored else LeftToRecovery;
      }
    }

    /** Releases both locks after a commit. */
    method Finish(update: LocationUpdate) returns (ghost settled: Disk)
      requires Tied() && model.token == update && process.At().Unlock?
      requires process.At().locality && process.At().policy
      modifies model, model.store`held, model.store`holder, model.store`calls, update, files`held, process
      ensures Ready() && process.At().Idle? && process.Excused(true)
      ensures model.policy == old(model.policy) && model.present == old(model.present)
      ensures SamePolicy(old(process.Disk()), settled) && SameFiles(old(process.Disk()), settled)
      ensures SameFiles(settled, process.Disk()) && Place() == Effective(settled).place
    {
      var _ := model.FinishLocationUpdate(update);
      settled := process.Disk();
      files.TransactionEnd();
    }

    /** Where the policy of a finished change stands, the lock having been granted over
        `granted` and given back over `settled`. */
    ghost predicate Ended(ending: Ending, target: Metadata, granted: Base, settled: Disk)
      reads this, model, process
    {
      var moved := granted.policy.(place := Location(true, target.latitude, target.longitude));
      match ending
      case Untouched => true
      case Committed =>
        && model.policy == moved && record == Some(target)
        && settled.policy == Doc(Stored(moved)) && settled.metadata == Doc(target)
        && process.Disk().metadata == Doc(target) && Place() == StoredPlace(moved.place)
      case Restored => D.Loaded(settled) == granted == Base(model.policy, model.present)
      case LeftToRecovery =>
        settled.policy == Doc(Stored(moved)) || (!granted.found && settled.policy.Missing?)
    }

    /** The change once the journal is staged. */
    method Change(target: Metadata) returns (ending: Ending, ghost settled: Disk)
      requires Ready() && process.At() == WantPolicy(SelectPlace(target))
      requires process.Disk().journal == Doc(target) && ValidRecord(target)
      modifies `record, model, model.store, files`held, process
      ensures Ready() && process.At().Idle?
      ensures Ended(ending, target, model.store.granted, settled)
      ensures process.Excused(ending.Committed?)
      ensures ending.Untouched? ==> model.policy == old(model.policy) && model.present == old(model.present)
      ensures !ending.Committed? ==>
        record == old(record) && process.Disk().metadata == old(process.Disk()).metadata
    {
      var update := new LocationUpdate();
      settled := process.Disk();
      var reserved := Reserve(target, update);
      if !reserved {
        return Untouched, settled;
      }
      ending, settled := Conclude(target, update);
      if ending.Committed? {
        record := Some(target);
      }
    }

    /** Moves policy and metadata to `target`, whatever other processes do meanwhile. Every
        primitive is the next one of the step program `SelectPlace`, and the process is idle
        with both locks free at the end. `Ended` tells what became of the two files; the panel
        remembers its old record or the committed one. The change is committed unless a
        primitive fails or finds its lock taken, or the record, new or committed, is no good. */
    method CommitPlace(target: Metadata) returns (ending: Ending, ghost settled: Disk)
      requires Ready() && process.At().Idle?
      modifies this, model, model.store, files`held, process
      ensures Ready() && process.At().Idle?
      ensures Ended(ending, target, model.store.granted, settled)
      ensures process.Excused(
        ending.Committed? || !ValidRecord(target) || process.Disk().metadata.Invalid?)
      ensures ending.Untouched? ==> model.policy == old(model.policy) && model.present == old(model.present)
      ensures !ending.Committed? ==> record == old(record) || record == OnDisk()
    {
      var ok, previous := Open(target);
      settled := process.Disk();
      ending := Untouched;
      if !ok {
        return;
      }
      ok := Stage(target);
      if ok {
        ending, settled := Change(target);
      }
      if ending.Committed? {
        follows := false;
      } else {
        record := previous;
      }
    }

    // ----- Reconciliation with the system time zone

    /** Moves the location to the reference point of the system time zone. */
    method FollowReference(point: Location) returns (ok: bool)
      requires Ready() && process.At().WantPolicy? && process.At().task.FollowZone?
      requires process.At().task.reference == Some(point)
      modifies model, model.store, process
      ensures Ready() && process.At() == Unlock(old(process.At()).task, true, false)
      ensures SameFiles(old(process.Disk()), process.Disk())
      ensures Place() == if ok then StoredPlace(Location(true, point.latitude, point.longitude))
                         else old(Place())
      ensures process.Excused(ok || !ValidCoordinates(point.latitude, point.longitude))
      ensures !ValidCoordinates(point.latitude, point.longitude) ==> !ok
    {
      ghost var t := process.At().task;
      ok := model.SetLocation(true, point.latitude, point.longitude, t);
      if process.At().WantPolicy? {
        model.store.Forgo();
      }
    }

    /** Rewrites the zone of the committed record. */
    method AlignZone(candidate: Metadata) returns (saved: bool)
      requires Ready() && process.At().SaveZone? && process.At().record == candidate
      modifies `record, process
      ensures Ready() && process.At() == Unlock(old(process.At()).task, true, false)
      ensures process.Disk().journal == old(process.Disk()).journal && Place() == old(Place())
      ensures process.Excused(saved || !ValidRecord(candidate)) && (saved ==> ValidRecord(candidate))
      ensures process.Disk().metadata == if saved then Doc(candidate) else old(process.Disk()).metadata
      ensures record == if saved then Some(candidate) else old(record)
    {
      saved := files.Save(candidate);
      if saved {
        record := Some(candidate);
      }
    }

    /** Rereads policy and record under the locality lock. */
    method Reread(ghost t: Task) returns (reloaded: bool)
      requires Ready() && process.At() == Survey(t) && t.FollowZone? && t.cached == record
      modifies `record, model, model.store`ownFailures, process
      ensures Ready() && SameFiles(old(process.Disk()), process.Disk()) && Place() == old(Place())
      ensures reloaded ==> model.policy.place == Place()
      ensures process.Excused(reloaded) && (record == old(record) || record == OnDisk())
      ensures process.failures == old(process.failures) ==>
        record == Known(process.Disk(), old(record))
      ensures process.At() == if reloaded then ZoneDecision(t, model.policy.place, record)
                              else Unlock(t, true, false)
    {
      reloaded := model.Reload();
      var status := files.LoadCommitted();
      if status.Loaded? {
        record := Some(status.record);
      } else if status.LoadMissing? {
        record := None;
      }
    }

    /** Who is the authority for the location: the committed record, the reference point of
        the time zone, or a location that only approximates it. */
    method RefreshAuthority(reference: Option<Location>) returns (matching: bool, same: bool)
      modifies `follows
      ensures matching <==> record.Some? && Matches(model.policy.place, record.value)
      ensures same <==> MatchesReference(model.policy.place, reference)
      ensures follows <==> !uncertain && !matching && (!model.policy.place.configured || same)
    {
      matching := record.Some? && Matches(model.policy.place, record.value);
      same := MatchesReference(model.policy.place, reference);
      follows := !uncertain && !matching && (!model.policy.place.configured || same);
    }

    /** The system zone's reference point is a place on the globe. */
    predicate OnGlobe(reference: Option<Location>) {
      reference.Some? ==> ValidCoordinates(reference.value.latitude, reference.value.longitude)
    }

    /** What reconciliation may have written on `d`, having found `found` under the lock. The
        metadata: nothing, or the zone of a record that describes the location. The location:
        nothing, or the reference point of the zone where no location was configured. */
    ghost predicate Reconciled(found: Disk, d: Disk, t: Task)
      requires t.FollowZone?
    {
      && d.journal == found.journal
      && (d.metadata == found.metadata
          || exists r :: (found.metadata == Doc(r) || t.cached == Some(r))
               && Matches(Effective(found).place, r) && t.zone.Some? && t.zone.value != r.zone
               && d.metadata == Doc(r.(zone := t.zone.value)))
      && (Effective(d).place == Effective(found).place
          || (!Effective(found).place.configured && !t.uncertain && t.aligned
              && t.reference.Some? && OnGlobe(t.reference)
              && Effective(d).place == StoredPlace(t.reference.value.(configured := true))))
    }

    /** Writes what the reread policy and record call for. */
    method Align(reference: Option<Location>, aligned: bool, zone: Option<string>, ghost t: Task)
      requires Ready() && t.FollowZone?
      requires t == FollowZone(reference, aligned, zone, t.cached, uncertain)
      requires model.policy.place == Place()
      requires process.At() == ZoneDecision(t, model.policy.place, record)
      modifies this, model, model.store, process
      ensures Ready() && process.At() == Unlock(t, true, false) && process.Excused(true)
      ensures process.Disk().journal == old(process.Disk()).journal
      ensures old(record).Some? && Matches(old(Place()), old(record).value) ==>
        var r := old(record).value;
        && Place() == old(Place())
        && (process.Disk().metadata == old(process.Disk()).metadata
            || (zone.Some? && zone.value != r.zone
                && process.Disk().metadata == Doc(r.(zone := zone.value))))
        && (process.failures == old(process.failures) && zone.Some? && zone.value != r.zone
              && ValidRecord(r.(zone := zone.value)) ==>
              process.Disk().metadata == Doc(r.(zone := zone.value)))
        && (zone.Some? && !ValidRecord(r.(zone := zone.value)) ==>
              process.Disk().metadata == old(process.Disk()).metadata)
      ensures !(old(record).Some? && Matches(old(Place()), old(record).value)) ==>
        && process.Disk().metadata == old(process.Disk()).metadata
        && (Place() == old(Place())
            || (!old(Place()).configured && !t.uncertain && aligned && reference.Some?
                && OnGlobe(reference)
                && Place() == StoredPlace(reference.value.(configured := true))))
        && (process.failures == old(process.failures) && !old(Place()).configured && !t.uncertain
              && aligned && reference.Some? && OnGlobe(reference) ==>
              Place() == StoredPlace(reference.value.(configured := true)))
    {
      var matching, same := RefreshAuthority(reference);
      if matching && zone.Some? && record.value.zone != zone.value {
        var saved := AlignZone(record.value.(zone := zone.value));
      } else if follows && aligned && reference.Some? && !same {
        var moved := FollowReference(reference.value);
      }
    }

    /** From the lock just granted to the point where only its release is left. */
    method ReconcileUnderLock(
      reference: Option<Location>, aligned: bool, zone: Option<string>, ghost t: Task)
      requires Ready() && process.At() == Survey(t)
      requires t == FollowZone(reference, aligned, zone, record, uncertain)
      modifies this, model, model.store, process
      ensures Ready() && process.At() == Unlock(t, true, false)
      ensures Reconciled(old(process.Disk()), process.Disk(), t) && process.Excused(true)
      ensures process.failures == old(process.failures) && OnGlobe(reference) ==>
        && process.Disk().metadata == Followed(old(process.Disk()), t).metadata
        && Place() == Effective(Followed(old(process.Disk()), t)).place
    {
      var reloaded := Reread(t);
      if !reloaded {
        return;
      }
      Align(reference, aligned, zone, t);
    }

    /** Follows a change of the system time zone, whatever other processes do meanwhile: every
        primitive is the next one of the step program, and the process is idle with both locks
        free at the end. With `found` the world in which the lock was granted, `Reconciled`
        tells what may have been written; unless a primitive fails or finds its lock taken,
        the metadata and the location are those that `Followed` describes. */
    method Reconcile(reference: Option<Location>, aligned: bool, zone: Option<string>)
      returns (ghost found: Option<World>)
      requires Ready() && process.At().Idle?
      modifies this, model, model.store, files`held, process
      ensures Ready() && process.At().Idle? && process.Excused(found.Some?)
      ensures
        var t := FollowZone(reference, aligned, zone, old(record), old(uncertain));
        found.Some? ==>
          && Reconciled(found.value.disk, process.Disk(), t)
          && (process.failures == old(process.failures) && OnGlobe(reference) ==>
                && process.Disk().metadata == Followed(found.value.disk, t).metadata
                && Place() == Effective(Followed(found.value.disk, t)).place)
    {
      ghost var t := FollowZone(reference, aligned, zone, record, uncertain);
      process.Begin(FollowZone(reference, aligned, zone, record, uncertain));
      found := None;
      var begun := files.TransactionBegin();
      if begun {
        found := Some(process.system.world);
        ReconcileUnderLock(reference, aligned, zone, t);
        files.TransactionEnd();
      }
    }
  }

  /** How a location change ended. */
  datatype Ending = Committed | Untouched | Restored | LeftToRecovery
}
