/** The command-line writer: one locked transaction for all its options.

    As for the panel, every file access is the next primitive of the step program that the
    command line stands for, with other processes acting in between. */
module TimeSettingsCli {
  import opened Optional
  import opened Temporal
  import opened Disk
  import D = Disk
  import opened Protocol
  import opened Locks
  import opened Interference
  import opened PolicyStore
  import opened LocationMetadata
  import opened CommandLine

  /** The task a command line performs. */
  function TaskOf(words: Words, args: seq<string>): Task {
    var es := Options(words, args);
    if es.None? then Reject(TouchesLocation(args))
    else if FieldOnly(es.value) then ChangeFields(es.value)
    else Batch(es.value)
  }

  lemma TaskIsProper(words: Words, args: seq<string>)
    requires words.Sensible()
    ensures Proper(TaskOf(words, args))
    ensures NeedsLocality(TaskOf(words, args)) <==> TouchesLocation(args)
    ensures Options(words, args).Some? ==>
      EditsOf(TaskOf(words, args)) == Options(words, args).value
  {
    if Options(words, args).Some? {
      LockedWhenMoving(words, args);
    }
  }

  // ----- What a command leaves, relative to the disk it was granted

  /** The publication stands, with the record that belongs to it. */
  ghost predicate Committed(d: Disk, es: seq<Edit>, granted: Disk) {
    && d.policy == Doc(Stored(ApplyAll(es, Effective(granted))))
    && (match LastMove(es)
        case None => true
        case Some(SetPlace(lat, lon)) => d.metadata == Doc(CustomCoordinates(lat, lon))
        case Some(_) => d.metadata == Missing && d.journal == granted.journal)
  }

  /** The publication was undone, the metadata being as it was, or gone if it was a clear. */
  ghost predicate RolledBack(d: Disk, es: seq<Edit>, granted: Disk) {
    && d.policy == (if granted.policy.Doc? then granted.policy else Missing)
    && (d.metadata == granted.metadata || (LastMove(es) == Some(Unplace) && d.metadata.Missing?))
  }

  /** The undo failed: the publication stands over the old record, or the document is gone
      where there was none; the journal is left for recovery. */
  ghost predicate Stuck(d: Disk, es: seq<Edit>, granted: Disk) {
    && (d.policy == Doc(Stored(ApplyAll(es, Effective(granted))))
        || (!granted.policy.Doc? && d.policy.Missing?))
    && (d.metadata == granted.metadata || (LastMove(es) == Some(Unplace) && d.metadata.Missing?))
    && (LastMove(es).Some? && LastMove(es).value.SetPlace? ==>
          d.journal == Doc(CustomCoordinates(LastMove(es).value.latitude, LastMove(es).value.longitude)))
  }

  method CommandTouchesLocation(args: seq<string>) returns (touches: bool)
    ensures touches <==> TouchesLocation(args)
  {
    for index := 0 to |args|
      invariant forall i | 0 <= i < index ::
                  args[i] != "--location" && args[i] != "--clear-location"
    {
      if args[index] == "--location" || args[index] == "--clear-location" {
        return true;
      }
    }
    return false;
  }

  /** Takes the locality lock if the command moves the location, then the policy lock. */
  method Acquire(files: Files, touches: bool, ghost t: Task) returns (ok: bool)
    requires files.Valid() && Proper(t) && (NeedsLocality(t) <==> touches)
    requires t.Batch? || t.ChangeFields? || t.Reject?
    requires files.process.At() == Entry(t) && files.store.holder == null
    modifies files`held, files.store`held, files.store`holder, files.store`calls
    modifies files.store`granted, files.store`ownFailures, files.process
    ensures files.Valid() && files.store.holder == (if ok then files else null)
    ensures files.process.Excused(ok)
    ensures files.process.At() == if ok then Load(t) else Idle
  {
    if touches {
      ok := files.TransactionBegin();
      if !ok {
        return;
      }
    }
    ok := files.store.BeginUpdate(files);
    if !ok && touches {
      files.TransactionEnd();
    }
  }

  /** Every path after the locks were taken ends here. */
  method Release(files: Files, touches: bool, ghost t: Task)
    requires files.Valid() && files.store.holder == files
    requires files.process.At() == Unlock(t, touches, true)
    modifies files`held, files.store`held, files.store`holder, files.store`calls, files.process
    ensures files.Valid() && files.process.At().Idle? && files.store.holder == null
    ensures files.process.Excused(true)
    ensures touches ==> SameFiles(old(files.process.Disk()), files.process.Disk())
    ensures touches ==> Effective(files.process.Disk()).place == old(Effective(files.process.Disk()).place)
  {
    files.store.EndUpdate(files);
    if touches {
      files.TransactionEnd();
    }
  }

  /** Restores the policy that was loaded, or its absence, and then drops the journal. */
  method Undo(files: Files, base: Base, staged: bool, ghost t: Task) returns (restored: bool)
    requires files.Valid() && files.process.At() == Rollback(t, base)
    requires t.Batch? && (staged <==> TargetOf(t).Some?) && Stored(base.policy) == base.policy
    requires files.process.Disk().policy.Doc?
    modifies files.store`own, files.store`ownSeed, files.store`ownFailures, files.process
    ensures files.Valid() && files.process.At() == Unlock(t, true, true)
    ensures files.process.Excused(restored)
    ensures files.process.Disk().metadata == old(files.process.Disk()).metadata
    ensures restored ==>
      files.process.Disk().policy == if base.found then Doc(base.policy) else Missing
    ensures !restored ==>
      && files.process.Disk().journal == old(files.process.Disk()).journal
      && (files.process.Disk().policy == old(files.process.Disk()).policy
          || (!base.found && files.process.Disk().policy.Missing?))
  {
    if base.found {
      ghost var o;
      restored, o := files.store.Save(base.policy);
    } else {
      restored := files.store.Clear();
    }
    if restored && staged {
      var _ := files.DiscardStaged();
    }
  }

  /** Commits or clears the metadata under both locks. */
  method Settle(files: Files, base: Base, clears: bool, ghost t: Task)
    returns (ok: bool, restored: bool)
    requires files.Valid() && files.process.At() == Publish(t, base)
    requires t.Batch? && (clears <==> TargetOf(t).None?) && Stored(base.policy) == base.policy
    requires files.process.Disk().policy.Doc? && (clears || files.Journal().Doc?)
    modifies files.store`own, files.store`ownSeed, files.store`ownFailures, files.process
    ensures files.Valid() && files.process.At() == Unlock(t, true, true)
    ensures files.process.Excused(ok)
    ensures ok ==>
      && SamePolicy(old(files.process.Disk()), files.process.Disk())
      && (if clears then files.Metadata().Missing? && files.Journal() == old(files.Journal())
          else files.Metadata() == old(files.Journal()))
    ensures !ok ==>
      files.Metadata() == old(files.Metadata()) || (clears && files.Metadata().Missing?)
    ensures !ok && restored ==>
      files.process.Disk().policy == if base.found then Doc(base.policy) else Missing
    ensures !ok && !restored ==>
      && files.Journal() == old(files.Journal())
      && (files.process.Disk().policy == old(files.process.Disk()).policy
          || (!base.found && files.process.Disk().policy.Missing?))
  {
    restored := false;
    if clears {
      ok := files.Clear();
    } else {
      ok := files.FinishStaged();
    }
    if !ok {
      restored := Undo(files, base, !clears, t);
    }
  }

  /** Stages the record of a location command and publishes the draft, or neither. */
  method SaveDraft(files: Files, base: Base, draft: Draft, ghost t: Task) returns (ok: bool)
    requires files.Valid() && Drafted(draft, EditsOf(t), base.policy)
    requires t == if draft.moves then Batch(EditsOf(t)) else ChangeFields(EditsOf(t))
    requires files.process.At() == if draft.moves && !draft.clears then Stage(t, Some(base))
                                   else Save(t, base)
    requires draft.moves && !draft.clears ==> ValidRecord(draft.record.value)
    modifies files.store`own, files.store`ownSeed, files.store`ownFailures, files.process
    ensures files.Valid() && files.process.Excused(ok)
    ensures draft.moves ==> files.Metadata() == old(files.Metadata())
    ensures files.process.Disk().policy ==
      if ok then Doc(Stored(draft.policy)) else old(files.process.Disk()).policy
    ensures files.process.At() == if ok && draft.moves then Publish(t, base)
                                  else Unlock(t, draft.moves, true)
    ensures ok && draft.moves ==>
      files.Journal() == if draft.clears then old(files.Journal()) else Doc(draft.record.value)
  {
    var staged := draft.moves && !draft.clears;
    if staged {
      ok := files.Stage(draft.record.value);
      if !ok {
        return;
      }
    }
    ghost var o;
    ok, o := files.store.Save(draft.policy);
    if !ok && staged {
      var _ := files.DiscardStaged();
    }
  }

  /** How far a command came; the exit code follows from it. */
  datatype Ending = Busy | Unavailable | Rejected | Unsaved | Undone | Adrift | Unsynchronized | Done

  function ExitCode(ending: Ending): nat {
    match ending
    case Busy => 2
    case Unavailable => 1
    case Rejected => 2
    case Unsaved => 2
    case Undone => 3
    case Adrift => 3
    case Unsynchronized => 3
    case Done => 0
  }

  /** What each ending says about the disk `d` on which the policy lock was given back, the
      lock having been granted over `granted`. */
  ghost predicate Leaves(ending: Ending, d: Disk, t: Task, granted: Disk) {
    && (NeedsLocality(t) && (ending.Unavailable? || ending.Rejected? || ending.Unsaved?) ==>
          d.metadata == granted.metadata)
    && (match ending
        case Busy => false
        case Unavailable => SamePolicy(granted, d)
        case Rejected => SamePolicy(granted, d) && (NeedsLocality(t) ==> d.journal == granted.journal)
        case Unsaved => d.policy == granted.policy
        case Undone => RolledBack(d, EditsOf(t), granted)
        case Adrift => Stuck(d, EditsOf(t), granted)
        case Unsynchronized => Committed(d, EditsOf(t), granted)
        case Done =>
          && Committed(d, EditsOf(t), granted)
          && Steady(d.seed, ApplyAll(EditsOf(t), Effective(granted))))
  }

  /** The command did what it was asked to do: everything is published, and a desktop that
      does not follow is reported exactly when it differs. */
  ghost predicate Accomplished(ending: Ending, d: Disk, t: Task, granted: Disk) {
    || ending.Done?
    || (ending.Unsynchronized? && !Steady(d.seed, ApplyAll(EditsOf(t), Effective(granted))))
  }

  lemma DraftTells(draft: Draft, es: seq<Edit>, base: Policy)
    requires Drafted(draft, es, base)
    ensures draft.moves ==>
      && LastMove(es).Some?
      && (draft.clears <==> LastMove(es).value.Unplace?)
      && (!draft.clears ==>
            && LastMove(es).value.SetPlace?
            && draft.record == Some(CustomCoordinates(LastMove(es).value.latitude,
                                                      LastMove(es).value.longitude)))
  {
  }

  /** Whether the desktop follows a policy that was published. */
  method Report(files: Files, policy: Policy) returns (ending: Ending)
    requires files.Valid() && HoldsPolicy(files.process.At())
    modifies files.process
    ensures files.Valid() && files.process.At() == old(files.process.At())
    ensures SamePolicy(old(files.process.Disk()), files.process.Disk())
    ensures HoldsLocality(files.process.At()) ==>
      SameFiles(old(files.process.Disk()), files.process.Disk())
    ensures ending == Done || ending == Unsynchronized
    ensures ending.Done? ==> Steady(files.process.Disk().seed, policy)
    ensures files.process.Excused(ending.Done? || !Steady(files.process.Disk().seed, policy))
  {
    var readable := files.ReadKeys();
    var follows := readable && Steady(files.process.Disk().seed, policy);
    ending := if follows then Done else Unsynchronized;
  }

  /** Saves a draft and settles the metadata; `None` if everything is published. */
  method PublishDraft(files: Files, base: Base, draft: Draft, ghost t: Task)
    returns (failed: Option<Ending>)
    requires files.Valid() && Drafted(draft, EditsOf(t), base.policy)
    requires base == D.Loaded(files.process.Disk()) && Stored(base.policy) == base.policy
    requires t == if draft.moves then Batch(EditsOf(t)) else ChangeFields(EditsOf(t))
    requires files.process.At() == if draft.moves && !draft.clears then Stage(t, Some(base))
                                   else Save(t, base)
    requires draft.moves && !draft.clears ==> ValidRecord(draft.record.value)
    modifies files.store`own, files.store`ownSeed, files.store`ownFailures, files.process
    ensures files.Valid() && files.process.At() == Unlock(t, draft.moves, true)
    ensures files.process.Excused(failed.None?)
    ensures failed.None? ==> Committed(files.process.Disk(), EditsOf(t), old(files.process.Disk()))
    ensures failed.Some? ==>
      && Leaves(failed.value, files.process.Disk(), t, old(files.process.Disk()))
      && (failed.value.Unsaved? || (draft.moves && (failed.value.Undone? || failed.value.Adrift?)))
  {
    DraftTells(draft, EditsOf(t), base.policy);
    var ok := SaveDraft(files, base, draft, t);
    if !ok {
      return Some(Unsaved);
    }
    failed := None;
    if draft.moves {
      var restored;
      ok, restored := Settle(files, base, draft.clears, t);
      if !ok {
        failed := Some(if restored then Undone else Adrift);
      }
    }
  }

  /** Publishes a draft, and asks whether the desktop follows. */
  method Publication(files: Files, base: Base, draft: Draft, ghost t: Task) returns (ending: Ending)
    requires files.Valid() && Drafted(draft, EditsOf(t), base.policy)
    requires base == D.Loaded(files.process.Disk()) && Stored(base.policy) == base.policy
    requires t == if draft.moves then Batch(EditsOf(t)) else ChangeFields(EditsOf(t))
    requires files.process.At() == if draft.moves && !draft.clears then Stage(t, Some(base))
                                   else Save(t, base)
    requires draft.moves && !draft.clears ==> ValidRecord(draft.record.value)
    modifies files.store`own, files.store`ownSeed, files.store`ownFailures, files.process
    ensures files.Valid() && files.process.At() == Unlock(t, draft.moves, true)
    ensures files.process.Excused(Accomplished(ending, files.process.Disk(), t, old(files.process.Disk())))
    ensures !ending.Rejected? && (ending.Undone? || ending.Adrift? ==> draft.moves)
    ensures Leaves(ending, files.process.Disk(), t, old(files.process.Disk()))
  {
    var failed := PublishDraft(files, base, draft, t);
    if failed.Some? {
      return failed.value;
    }
    ghost var published := files.process.Disk();
    ending := Report(files, draft.policy);
    CommittedStays(published, files.process.Disk(), EditsOf(t), old(files.process.Disk()));
  }

  lemma CommittedStays(d: Disk, d': Disk, es: seq<Edit>, granted: Disk)
    requires Committed(d, es, granted) && SamePolicy(d, d')
    requires LastMove(es).Some? ==> SameFiles(d, d')
    ensures Committed(d', es, granted)
  {
  }

  /** What was granted is what was loaded. */
  lemma LeavesAlike(ending: Ending, d: Disk, t: Task, loaded: Disk, granted: Disk)
    requires Leaves(ending, d, t, loaded) && Proper(t) && SamePolicy(granted, loaded)
    requires t.Batch? || t.ChangeFields?
    requires t.Batch? ==> SameFiles(granted, loaded)
    requires ending.Undone? || ending.Adrift? ==> t.Batch?
    ensures Leaves(ending, d, t, granted)
  {
    assert t.ChangeFields? ==> LastMove(EditsOf(t)).None?;
  }

  /** Between the locks: reads the policy, folds the options into a draft and publishes it. */
  method UnderLocks(words: Words, args: seq<string>, files: Files, ghost t: Task)
    returns (ending: Ending)
    requires words.Sensible() && t == TaskOf(words, args)
    requires files.Valid() && files.store.held && files.process.At() == Load(t)
    modifies files.store`own, files.store`ownSeed, files.store`ownFailures, files.process
    ensures files.Valid() && files.process.At() == Unlock(t, NeedsLocality(t), true)
    ensures Leaves(ending, files.process.Disk(), t, old(files.process.Disk()))
    ensures files.process.Excused(
      ending.Rejected? || Accomplished(ending, files.process.Disk(), t, old(files.process.Disk())))
    ensures Options(words, args).None? ==> ending.Unavailable? || ending.Rejected?
    ensures ending.Rejected? ==> Options(words, args).None?
  {
    var base := files.store.Load();
    if base.None? {
      return Unavailable;
    }
    var draft := FoldOptions(words, args, base.value.policy);
    if draft.None? {
      return Rejected;
    }
    StoredOnDisk(files);
    TaskIsProper(words, args);
    RecordIsValid(words, args);
    ghost var loaded := files.process.Disk();
    ending := Publication(files, base.value, draft.value, t);
    LeavesAlike(ending, files.process.Disk(), t, loaded, old(files.process.Disk()));
  }

  /** The number parser and the range checks leave only coordinates that can be recorded. */
  lemma RecordIsValid(words: Words, args: seq<string>)
    requires Options(words, args).Some?
    ensures
      var last := LastMove(Options(words, args).value);
      last.Some? && last.value.SetPlace? ==>
        ValidRecord(CustomCoordinates(last.value.latitude, last.value.longitude))
  {
    OptionsAreInRange(words, args);
  }

  lemma StoredOnDisk(files: Files)
    requires files.Valid()
    ensures Stored(Effective(files.process.Disk())) == Effective(files.process.Disk())
  {
    files.process.WellInformed();
    EffectiveIsStored(files.process.Disk());
  }

  /** The policy on `settled` is that on `granted` but for what the words say, and the
      metadata belongs to the location that they give. */
  ghost predicate Says(words: Words, args: seq<string>, granted: Disk, settled: Disk) {
    exists p :: Tells(words, args, Effective(granted), p) && settled.policy == Doc(Stored(p))
      && (TouchesLocation(args) ==>
            settled.metadata == if p.place.configured
                                then Doc(CustomCoordinates(p.place.latitude, p.place.longitude))
                                else Missing)
  }

  lemma CommittedSays(words: Words, args: seq<string>, granted: Disk, settled: Disk)
    requires words.Sensible() && Options(words, args).Some?
    requires Committed(settled, Options(words, args).value, granted)
    ensures Says(words, args, granted, settled)
  {
    var es := Options(words, args).value;
    OptionsTell(words, args, Effective(granted));
    LockedWhenMoving(words, args);
    LastMoveWins(es, Effective(granted));
    assert Tells(words, args, Effective(granted), ApplyAll(es, Effective(granted)));
  }

  lemma Accounted(words: Words, args: seq<string>, ending: Ending, granted: Disk, settled: Disk)
    requires words.Sensible() && Leaves(ending, settled, TaskOf(words, args), granted)
    requires ending.Done? || ending.Unsynchronized?
    requires Options(words, args).Some?
    ensures Says(words, args, granted, settled)
  {
    CommittedSays(words, args, granted, settled);
  }

  /** Runs one command line, whatever other processes do meanwhile. Every primitive is the
      next one of its step program and both locks are free again on every exit. `granted` is
      the disk over which the policy lock was granted, `settled` the one over which it was
      given back. An acceptable command accomplishes what it says, and any other is rejected,
      unless a primitive fails or finds its lock taken. */
  method Execute(words: Words, args: seq<string>, files: Files)
    returns (ending: Ending, ghost granted: Disk, ghost settled: Disk)
    requires words.Sensible() && args != []
    requires files.Valid() && files.process.At().Idle? && files.store.holder == null
    modifies files, files.store, files.process
    ensures files.Valid() && files.process.At().Idle? && files.store.holder == null
    ensures files.process.Excused(
      ending.Rejected? || Accomplished(ending, settled, TaskOf(words, args), granted))
    ensures ending.Rejected? ==> !Acceptable(words, args)
    ensures !Acceptable(words, args) ==> ending.Busy? || ending.Unavailable? || ending.Rejected?
    ensures ending.Done? || ending.Unsynchronized? ==> Says(words, args, granted, settled)
    ensures !ending.Busy? ==> Leaves(ending, settled, TaskOf(words, args), granted)
    ensures !ending.Busy? && TouchesLocation(args) ==>
      && SameFiles(settled, files.process.Disk())
      && Effective(files.process.Disk()).place == Effective(settled).place
    ensures ExitCode(ending) == 0 ==> ending.Done?
    ensures ExitCode(ending) == 1 || ExitCode(ending) == 2 ==> settled.policy == granted.policy
    ensures ExitCode(ending) == 3 ==> Acceptable(words, args)
  {
    TaskIsProper(words, args);
    OptionsAreExact(words, args);
    var touches := CommandTouchesLocation(args);
    files.process.Begin(TaskOf(words, args));
    ghost var t := TaskOf(words, args);
    granted, settled := files.process.Disk(), files.process.Disk();
    var ok := Acquire(files, touches, t);
    if !ok {
      return Busy, granted, settled;
    }
    granted := files.process.Disk();
    ending := UnderLocks(words, args, files, t);
    settled := files.process.Disk();
    if ending.Done? || ending.Unsynchronized? {
      Accounted(words, args, ending, granted, settled);
    }
    Release(files, touches, t);
  }
}
