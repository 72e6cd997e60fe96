/** The transactional owner of the temporal policy.

    `Valid` is what holds between calls: the model is saving exactly when it holds the update
    lock, and exactly one token is active then. Every method keeps it, for every store failure.
    With a shared store, every method is also the part of its process's program that its
    contract names, whatever the other processes do meanwhile. */
module DateTimeModel {
  import opened Optional
  import opened Temporal
  import opened Disk
  import opened Protocol
  import opened Locks
  import opened Interference
  import opened PolicyStore

  predicate ValidCoordinates(latitude: real, longitude: real) {
    -90.0 <= latitude <= 90.0 && -180.0 <= longitude <= 180.0
  }

  /** The desktop keys after some save of `p`. */
  ghost predicate MirroredFrom(seed: Seed, p: Policy, seed': Seed) {
    exists o :: Saved(o) && seed' == Mirrored(seed, p, o)
  }

  class LocationUpdate {
    var owner: Model?
    var previous: Base
    var active: bool

    constructor ()
      ensures !active && owner == null
    {
      owner, active := null, false;
      previous := Base(Policy("", "", false, NOWHERE), false);
    }
  }

  class Model {
    const store: Store
    const knownClock: string -> bool
    const knownCalendar: string -> bool
    var policy: Policy
    var present: bool
    var saving: bool
    /** The open location update, and every token ever handed to this model. */
    ghost var token: LocationUpdate?
    ghost var tokens: set<LocationUpdate>

    ghost predicate Valid()
      reads this, store, store.process, tokens
    {
      && store.Valid()
      && (saving <==> store.holder == this) && (saving ==> store.locking)
      && (saving <==> token != null)
      && (token != null ==>
            && token in tokens && token.active && token.owner == this
            && store.File().Doc? && store.clearing
            && Stored(token.previous.policy) == token.previous.policy
            && (!token.previous.found ==> token.previous.policy == Fallback(store.SeedNow())))
      && (forall t <- tokens :: t.active && t.owner == this ==> t == token)
    }

    /** A token is one this model has seen, or not one it opened. */
    ghost predicate Known(update: LocationUpdate)
      reads this, update
    {
      update in tokens || !update.active || update.owner != this
    }

    /** In-memory policy and provenance are as they were, and so is a private document. */
    twostate predicate Unchanged()
      reads this, store
    {
      && policy == old(policy) && present == old(present)
      && (store.process == null ==>
            store.own == old(store.own) && store.ownSeed == old(store.ownSeed))
    }

    twostate predicate LockAsBefore()
      reads this, store
    {
      saving == old(saving) && store.holder == old(store.holder) && token == old(token)
    }

    constructor (store: Store, knownClock: string -> bool, knownCalendar: string -> bool)
      requires store.Valid()
      ensures this.store == store && !saving && tokens == {}
      ensures this.knownClock == knownClock && this.knownCalendar == knownCalendar
      ensures store.holder != this ==> Valid()
    {
      this.store, this.knownClock, this.knownCalendar := store, knownClock, knownCalendar;
      policy, present, saving := Fallback(store.ownSeed), false, false;
      token, tokens := null, {};
    }

    /** A shared store's process is about to run the program of this task. */
    ghost predicate Due(t: Task)
      requires store.Valid()
      reads store, store.process
    {
      store.process != null ==> store.process.At() == WantPolicy(t)
    }

    /** A shared store's process has reached this program point. */
    ghost predicate Reached(pc: Pc)
      requires store.Valid()
      reads store, store.process
    {
      store.process != null ==> store.process.At() == pc
    }

    /** Metadata, journal and lock of the locality are not this object's to change. */
    twostate predicate LocalityLeft()
      requires old(store.Valid())
      reads store, store.process
    {
      store.process != null ==>
        LocalityKept(old(store.process.At()), old(store.process.Disk()), store.process.Disk())
    }

    method Reload() returns (ok: bool)
      requires Valid()
      modifies `policy, `present, store`ownFailures, store.process
      ensures Valid() && saving == old(saving) && store.Counts(ok || saving)
      ensures ok ==> !saving && Base(policy, present) == store.Current()
      ensures !ok ==> Unchanged()
      ensures store.process != null && !saving ==>
        && store.process.At() ==
             AfterPolicyRead(old(store.process.At()), if ok then Some(Base(policy, present)) else None)
        && store.Protects() && LocalityLeft()
        && PlaceKept(old(store.process.At()), old(store.process.Disk()), store.process.Disk())
      ensures saving ==> !ok && (store.process != null ==> store.process.system == old(store.process.system))
    {
      ok := false;
      if !saving {
        var base := store.Load();
        if base.Some? {
          policy, present, ok := base.value.policy, base.value.found, true;
        }
      }
    }

    /** In-memory normalisation of a bootstrap clock, before any document exists. */
    method NormalizeUnpersistedClockMode(mode: string) returns (ok: bool)
      requires Valid()
      modifies `policy
      ensures Valid()
      ensures ok <==> knownClock(mode) && !saving && !present
      ensures policy == if ok then old(policy).(clock := mode) else old(policy)
    {
      ok := knownClock(mode) && !saving && !present;
      if ok {
        policy := policy.(clock := mode);
      }
    }

    method ReleaseUpdateLock()
      requires store.Valid() && (store.holder == this ==> saving && store.locking)
      requires saving && store.locking ==> store.holder == this
      requires saving && store.process != null ==> ReleasesPolicy(store.process.At())
      modifies `saving, store`held, store`holder, store`calls, store.process
      ensures store.Valid() && !saving && store.Counts(true)
      ensures store.holder == if old(store.holder) == this then null else old(store.holder)
      ensures store.calls == old(store.calls) + (if old(store.holder) == this then [Ended] else [])
      ensures store.File() == old(store.File()) && store.SeedNow() == old(store.SeedNow())
      ensures LocalityLeft()
      ensures store.process != null ==>
        store.process.At() ==
          if old(saving) then AfterRelease(old(store.process.At())) else old(store.process.At())
    {
      if saving {
        if store.locking {
          store.EndUpdate(this);
        }
        saving := false;
      }
    }

    /** The lock was not granted, or was given back over the policy that it was granted with. */
    twostate predicate NothingWritten()
      reads store, store.process
    {
      || store.calls == old(store.calls)
      || (store.calls == old(store.calls) + [Begun, Ended] && store.Current() == store.granted)
    }

    /** For the holder of the locality lock, the location of the policy that the lock was
        granted with is the one it knew; so is the present one if the lock was not granted. */
    twostate predicate PlaceFound()
      requires old(store.Valid())
      reads store, store.process
    {
      store.process != null && HoldsLocality(old(store.process.At())) ==>
        var place := old(Effective(store.process.Disk()).place);
        if store.calls == old(store.calls) then Effective(store.process.Disk()).place == place
        else store.granted.policy.place == place
    }

    /** Loads under the lock just granted; a failed load gives the lock back. */
    method LoadGranted(ghost t: Task) returns (candidate: Option<Base>)
      requires store.Valid() && store.locking && saving && store.holder == this
      requires Simple(t) && Reached(Load(t)) && store.granted == store.Current()
      modifies `saving, store`held, store`holder, store`calls, store`ownFailures, store.process
      ensures store.Valid() && LocalityLeft() && store.Excused(candidate.Some?)
      ensures store.granted == old(store.granted)
      ensures candidate.Some? ==>
        && saving && store.holder == this && Reached(Save(t, candidate.value))
        && candidate.value == store.granted == store.Current()
      ensures candidate.None? ==>
        && !saving && store.holder == null && Reached(AfterRequest(t, false))
        && store.calls == old(store.calls) + [Ended] && store.Current() == store.granted
      ensures candidate.Some? ==> store.calls == old(store.calls)
    {
      candidate := store.Load();
      if candidate.None? {
        ReleaseUpdateLock();
      }
    }

    /** Tasks whose program goes from the load straight to the save. */
    ghost predicate Simple(t: Task) {
      t.ChangeFields? || t.SelectPlace? || t.FollowZone?
    }

    /** Enters the persist-before-publish boundary with a fresh copy of the policy. */
    method BeginCandidate(ghost t: Task) returns (candidate: Option<Base>)
      requires Valid() && Simple(t) && (!saving ==> Due(t))
      modifies `saving, store`held, store`holder, store`calls, store`granted, store`ownFailures
      modifies store.process
      ensures store.Valid() && LocalityLeft() && store.Excused(candidate.Some? || old(saving))
      ensures candidate.None? ==>
        LockAsBefore() && NothingWritten() && (!saving ==> Reached(AfterRequest(t, false)))
      ensures candidate.Some? && store.locking ==> store.calls == old(store.calls) + [Begun]
      ensures PlaceFound()
      ensures candidate.Some? ==>
        && !old(saving) && saving && Reached(Save(t, candidate.value))
        && (store.locking <==> store.holder == this) && (store.locking ==> old(store.holder) == null)
        && candidate.value == (if store.locking then store.granted else Base(policy, present))
        && (store.locking ==> candidate.value == store.Current())
      ensures store.locking || store.holder == old(store.holder)
      ensures old(saving) ==>
        candidate.None? && saving && store.holder == old(store.holder)
        && store.File() == old(store.File()) && store.SeedNow() == old(store.SeedNow())
        && Reached(old(if store.process != null then store.process.At() else Idle))
    {
      candidate := None;
      if saving {
        return;
      }
      saving := true;
      if !store.locking {
        return Some(Base(policy, present));
      }
      var locked := store.BeginUpdate(this);
      if locked {
        candidate := LoadGranted(t);
      } else {
        saving := false;
      }
    }

    /** Persists, releases, and only then publishes in memory. */
    method SaveCandidate(candidate: Policy, ghost t: Task) returns (ok: bool)
      requires store.Valid() && saving && token == null && Simple(t) && !PairWriter(t)
      requires store.locking <==> store.holder == this
      requires forall t <- tokens :: t.active ==> t.owner != this
      requires store.process != null ==>
        && store.process.At().Save? && store.process.At().task == t
        && candidate == Candidate(t, store.process.At().base)
      modifies `policy, `present, `saving, store, store.process
      ensures Valid() && !saving && token == null && tokens == old(tokens) && store.Excused(ok)
      ensures store.holder == if store.locking then null else old(store.holder)
      ensures store.granted == old(store.granted)
      ensures ok ==>
        && policy == candidate && present && store.File() == Doc(Stored(candidate))
        && MirroredFrom(old(store.SeedNow()), candidate, store.SeedNow())
      ensures !ok ==> Unchanged() && store.Current() == old(store.Current())
      ensures store.locking ==> store.calls == old(store.calls) + [Ended]
      ensures Reached(AfterRequest(t, false)) && LocalityLeft()
    {
      ghost var o;
      ok, o := store.Save(candidate);
      ReleaseUpdateLock();
      if ok {
        policy, present := candidate, true;
      }
    }

    /** The policy that a setter built on: the stored one at the moment the lock was granted,
        or the model's own where there is no lock to take. */
    twostate function Basis(): Policy
      reads this, store
    {
      if store.locking then store.granted.policy else old(policy)
    }

    /** What every setter promises: the basis with one field replaced is published and then
        remembered, or this call changes nothing. A private store's basis is what it held. */
    twostate predicate PublishedOrUntouched(next: Policy, ok: bool)
      requires old(store.Valid()) && store.Valid()
      reads this, store, store.process
    {
      && LockAsBefore() && LocalityLeft()
      && (ok ==>
            && !saving && present && policy == next && store.File() == Doc(Stored(next))
            && (store.process == null && store.locking ==> store.granted == old(store.Current())))
      && (!ok ==> Unchanged() && (store.locking ==> NothingWritten()))
    }

    /** A setter's program, from the request for the lock to the release. */
    method Publish(ghost t: Task, es: seq<Edit>) returns (ok: bool)
      requires Valid() && Simple(t) && !PairWriter(t)
      requires store.process != null ==> EditsOf(t) == es
      requires !saving ==> Due(t)
      modifies this, store, store.process
      ensures Valid() && tokens == old(tokens)
      ensures PublishedOrUntouched(ApplyAll(es, Basis()), ok)
      ensures old(saving) || PlaceFound()
      ensures old(saving) ==> !ok
      ensures store.Excused(ok || old(saving))
      ensures !old(saving) ==> Reached(AfterRequest(t, false))
    {
      ok := false;
      var base := BeginCandidate(t);
      if base.Some? {
        ok := SaveCandidate(ApplyAll(es, base.value.policy), t);
      }
    }

    method SetClockMode(mode: string) returns (ok: bool)
      requires Valid()
      requires knownClock(mode) && !saving ==> Due(ChangeFields([SetClock(mode)]))
      modifies this, store, store.process
      ensures Valid() && tokens == old(tokens)
      ensures PublishedOrUntouched(Basis().(clock := mode), ok)
      ensures store.Excused(ok || !knownClock(mode) || old(saving))
      ensures !knownClock(mode) || old(saving) ==> !ok
      ensures knownClock(mode) && !old(saving) ==> Reached(Idle)
    {
      ok := false;
      if knownClock(mode) {
        ok := Publish(ChangeFields([SetClock(mode)]), [SetClock(mode)]);
        SingleEdit(SetClock(mode), Basis());
      }
    }

    method SetCalendar(id: string) returns (ok: bool)
      requires Valid()
      requires knownCalendar(id) && !saving ==> Due(ChangeFields([Edit.SetCalendar(id)]))
      modifies this, store, store.process
      ensures Valid() && tokens == old(tokens)
      ensures PublishedOrUntouched(Basis().(calendar := id), ok)
      ensures store.Excused(ok || !knownCalendar(id) || old(saving))
      ensures !knownCalendar(id) || old(saving) ==> !ok
      ensures knownCalendar(id) && !old(saving) ==> Reached(Idle)
    {
      ok := false;
      if knownCalendar(id) {
        ok := Publish(ChangeFields([Edit.SetCalendar(id)]), [Edit.SetCalendar(id)]);
        SingleEdit(Edit.SetCalendar(id), Basis());
      }
    }

    method SetShowSeconds(show: bool) returns (ok: bool)
      requires Valid()
      requires !saving ==> Due(ChangeFields([SetSeconds(show)]))
      modifies this, store, store.process
      ensures Valid() && tokens == old(tokens)
      ensures PublishedOrUntouched(Basis().(seconds := show), ok)
      ensures store.Excused(ok || old(saving))
      ensures old(saving) ==> !ok
      ensures !old(saving) ==> Reached(Idle)
    {
      ok := Publish(ChangeFields([SetSeconds(show)]), [SetSeconds(show)]);
      SingleEdit(SetSeconds(show), Basis());
    }

    /** A shared store's process does this only as reconciliation with the time zone. */
    method SetLocation(configured: bool, latitude: real, longitude: real, ghost t: Task)
      returns (ok: bool)
      requires Valid() && Simple(t) && !PairWriter(t)
      requires store.process != null ==> configured && EditsOf(t) == [SetPlace(latitude, longitude)]
      requires ValidCoordinates(latitude, longitude) && !saving ==> Due(t)
      modifies this, store, store.process
      ensures Valid() && tokens == old(tokens)
      ensures PublishedOrUntouched(
        Basis().(place := Location(configured, latitude, longitude)), ok)
      ensures old(saving) || PlaceFound()
      ensures store.Excused(ok || !ValidCoordinates(latitude, longitude) || old(saving))
      ensures !ValidCoordinates(latitude, longitude) || old(saving) ==> !ok
      ensures ValidCoordinates(latitude, longitude) && !old(saving) ==>
        Reached(AfterRequest(t, false))
      ensures !ValidCoordinates(latitude, longitude) && store.process != null ==>
        store.process.system == old(store.process.system)
    {
      ok := false;
      if ValidCoordinates(latitude, longitude) {
        ok := Publish(t, PlaceEdits(configured, latitude, longitude));
        PlaceEditsMean(configured, latitude, longitude, Basis());
      }
    }

    function PlaceEdits(configured: bool, latitude: real, longitude: real): seq<Edit> {
      if configured then [SetPlace(latitude, longitude)] else [SetPlace(latitude, longitude), Unplace]
    }

    lemma PlaceEditsMean(configured: bool, latitude: real, longitude: real, p: Policy)
      ensures ApplyAll(PlaceEdits(configured, latitude, longitude), p)
                == p.(place := Location(configured, latitude, longitude))
    {
      var es := [SetPlace(latitude, longitude), Unplace];
      assert es[..1] == [SetPlace(latitude, longitude)];
      SingleEdit(SetPlace(latitude, longitude), p);
    }

    // ----- Location updates

    /** Why an update cannot even ask for the lock. */
    predicate Refuses(latitude: real, longitude: real, update: LocationUpdate)
      reads update
    {
      update.active || !ValidCoordinates(latitude, longitude) || !store.locking || !store.clearing
    }

    /** Saves the candidate under the lock, or gives the lock back. */
    method SaveOrRelease(candidate: Policy, base: Base, ghost t: Task) returns (ok: bool)
      requires store.Valid() && saving && store.locking && store.holder == this && t.SelectPlace?
      requires base == store.Current() && candidate == base.policy.(place := candidate.place)
      requires Reached(Save(t, base)) && (store.process != null ==> candidate == Candidate(t, base))
      modifies `saving, store, store.process
      ensures store.Valid() && LocalityLeft() && store.granted == old(store.granted)
      ensures store.Excused(ok)
      ensures Stored(base.policy) == base.policy
      ensures ok ==>
        && saving && store.holder == this && store.File() == Doc(Stored(candidate))
        && (!base.found ==> base.policy == Fallback(store.SeedNow()))
        && Reached(Protocol.Publish(t, base))
      ensures !ok ==>
        && !saving && store.holder == null && Reached(Discard(t, false))
        && store.Current() == base && store.calls == old(store.calls) + [Ended]
        && (store.process == null ==>
              store.own == old(store.own) && store.ownSeed == old(store.ownSeed))
    {
      StoredNow();
      ghost var o;
      ok, o := store.Save(candidate);
      KeysUntouched(base, candidate, old(store.SeedNow()), o);
      if !ok {
        ReleaseUpdateLock();
      }
    }

    /** Saves the candidate and opens the token, or gives the lock back. */
    method OpenUpdate(candidate: Policy, update: LocationUpdate, base: Base, ghost t: Task)
      returns (ok: bool)
      requires store.Valid() && saving && token == null && store.holder == this && t.SelectPlace?
      requires store.locking && store.clearing && update in tokens && !update.active
      requires forall t <- tokens :: t.active ==> t.owner != this
      requires base == store.Current() && candidate == base.policy.(place := candidate.place)
      requires Reached(Save(t, base)) && (store.process != null ==> candidate == Candidate(t, base))
      modifies this, store, store.process, update
      ensures Valid() && tokens == old(tokens) && LocalityLeft()
      ensures store.granted == old(store.granted) && store.Excused(ok)
      ensures ok ==>
        && token == update && update.active && update.owner == this && update.previous == base
        && policy == candidate && present && store.File() == Doc(Stored(candidate))
        && Reached(Protocol.Publish(t, base))
      ensures !ok ==>
        && Unchanged() && !saving && store.holder == null && token == null && !update.active
        && store.Current() == base && store.calls == old(store.calls) + [Ended]
        && Reached(Discard(t, false))
    {
      update.owner, update.previous := this, base;
      ok := SaveOrRelease(candidate, base, t);
      if ok {
        policy, present := candidate, true;
        update.active, token := true, update;
      } else {
        update.owner := null;
      }
    }

    lemma StoredNow()
      requires store.Valid()
      ensures store.File().Doc? ==> Stored(store.File().value) == store.File().value
    {
      if store.process != null {
        store.process.WellInformed();
      }
    }

    /** Replacing the place of defaults mirrors back the keys that they came from. */
    lemma KeysUntouched(base: Base, candidate: Policy, seed: Seed, o: Outcome)
      requires !base.found ==> base.policy == Fallback(seed)
      requires candidate == base.policy.(place := candidate.place)
      ensures !base.found ==> Mirrored(seed, candidate, o) == seed
      ensures !base.found ==> Stored(base.policy) == base.policy
    {
      SteadyIsExact(seed, candidate, o);
      assert Round6(0.0) == 0.0 by { MicroOfMultiple(0); }
    }

    /** The program of an update, from the request for the lock to the open token. */
    method StartUpdate(
      configured: bool, latitude: real, longitude: real, update: LocationUpdate, ghost t: Task)
      returns (ok: bool)
      requires Valid() && !saving && update in tokens && !update.active && t.SelectPlace?
      requires store.locking && store.clearing && Due(t)
      requires store.process != null ==> configured && EditsOf(t) == [SetPlace(latitude, longitude)]
      modifies this, store, store.process, update
      ensures Valid() && tokens == old(tokens) && LocalityLeft() && store.Excused(ok)
      ensures ok ==>
        && token == update && update.active && update.owner == this
        && update.previous == store.granted
        && (store.process == null ==> store.granted == old(store.Current()))
        && policy == update.previous.policy.(place := Location(configured, latitude, longitude))
        && present && store.File() == Doc(Stored(policy))
        && Reached(Protocol.Publish(t, update.previous))
      ensures !ok ==>
        && Unchanged() && NothingWritten() && LockAsBefore() && !update.active
        && Reached(Discard(t, false))
    {
      ok := false;
      var base := BeginCandidate(t);
      if base.Some? {
        SingleEdit(SetPlace(latitude, longitude), base.value.policy);
        ok := OpenUpdate(base.value.policy.(place := Location(configured, latitude, longitude)),
                         update, base.value, t);
      }
    }

    /** Publishes a location and keeps the update lock until finish or rollback. */
    method BeginLocationUpdate(
      configured: bool, latitude: real, longitude: real, update: LocationUpdate, ghost t: Task)
      returns (ok: bool)
      requires Valid() && Known(update) && t.SelectPlace?
      requires store.process != null ==> configured && EditsOf(t) == [SetPlace(latitude, longitude)]
      requires !saving && !Refuses(latitude, longitude, update) ==> Due(t)
      modifies this, store, store.process, update
      ensures Valid() && tokens == old(tokens) + {update} && LocalityLeft()
      ensures store.Excused(ok || old(saving) || old(Refuses(latitude, longitude, update)))
      ensures ok ==>
        && token == update && update.active && update.owner == this
        && update.previous == store.granted
        && (store.process == null ==> store.granted == old(store.Current()))
        && policy == update.previous.policy.(place := Location(configured, latitude, longitude))
        && present && store.File() == Doc(Stored(policy))
        && Reached(Protocol.Publish(t, update.previous))
      ensures !ok ==>
        Unchanged() && NothingWritten() && LockAsBefore() && update.active == old(update.active)
      ensures old(saving) || old(Refuses(latitude, longitude, update)) ==>
        !ok && (store.process != null ==> store.process.system == old(store.process.system))
      ensures !old(saving) && !old(Refuses(latitude, longitude, update)) && !ok ==>
        Reached(Discard(t, false))
    {
      ok := false;
      tokens := tokens + {update};
      if update.active || saving || !ValidCoordinates(latitude, longitude)
         || !store.locking || !store.clearing
      {
        return;
      }
      ok := StartUpdate(configured, latitude, longitude, update, t);
    }

    /** Releases the lock and kills the open token. */
    method CloseUpdate(update: LocationUpdate)
      requires store.Valid() && saving && store.locking && store.holder == this && token == update
      requires forall t <- tokens :: t.active && t.owner == this ==> t == token
      requires store.process != null ==> ReleasesPolicy(store.process.At())
      modifies `saving, `token, store`held, store`holder, store`calls, store.process, update
      ensures Valid() && !saving && token == null && !update.active && store.holder == null
      ensures store.Counts(true)
      ensures store.File() == old(store.File()) && store.SeedNow() == old(store.SeedNow())
      ensures LocalityLeft()
      ensures store.process != null ==>
        store.process.At() == AfterRelease(old(store.process.At()))
    {
      ReleaseUpdateLock();
      update.active, update.owner, token := false, null, null;
    }

    /** Succeeds exactly for the open token; never writes. */
    method FinishLocationUpdate(update: LocationUpdate) returns (ok: bool)
      requires Valid() && Known(update)
      requires token == update && store.process != null ==> ReleasesPolicy(store.process.At())
      modifies this, store`held, store`holder, store`calls, store.process, update
      ensures Valid() && tokens == old(tokens) && Unchanged() && LocalityLeft()
      ensures store.File() == old(store.File()) && store.SeedNow() == old(store.SeedNow())
      ensures (ok <==> old(token) == update) && store.Counts(true)
      ensures ok ==> !saving && token == null && !update.active && store.holder == null
      ensures ok && store.process != null ==>
        store.process.At() == AfterRelease(old(store.process.At()))
      ensures !ok ==> LockAsBefore() && update.active == old(update.active)
      ensures !ok && store.process != null ==> store.process.system == old(store.process.system)
    {
      ok := update.active && update.owner == this && saving;
      if ok {
        CloseUpdate(update);
      }
    }

    /** Puts the document of an open update back, or its absence. */
    method RestorePrevious(update: LocationUpdate, ghost t: Task) returns (restored: bool)
      requires Valid() && token == update && t.SelectPlace?
      requires Reached(Rollback(t, update.previous))
      modifies store`own, store`ownSeed, store`ownFailures, store.process
      ensures store.Valid() && LocalityLeft() && store.Counts(restored)
      ensures Reached(if restored then Discard(t, true) else Unlock(t, true, true))
      ensures restored ==>
        && store.File() == (if update.previous.found then Doc(update.previous.policy) else Missing)
        && store.Current() == update.previous
      ensures !restored ==>
        store.File() == old(store.File()) || (!update.previous.found && store.File().Missing?)
    {
      if update.previous.found {
        ghost var o;
        restored, o := store.Save(update.previous.policy);
      } else {
        restored := store.Clear();
      }
    }

    /** Undoes the open update. */
    method Undo(update: LocationUpdate, ghost t: Task) returns (restored: bool)
      requires Valid() && token == update && t.SelectPlace?
      requires Reached(Rollback(t, update.previous))
      modifies this, store`own, store`ownSeed, store`held, store`holder, store`calls
      modifies store`ownFailures, store.process, update
      ensures Valid() && tokens == old(tokens) && LocalityLeft() && store.Counts(restored)
      ensures !saving && token == null && !update.active && store.holder == null
      ensures Reached(if restored then Discard(t, false) else Unlock(t, true, false))
      ensures restored ==>
        && store.Current() == old(update.previous) == Base(policy, present)
        && store.File() == (if old(update.previous).found then Doc(old(update.previous).policy) else Missing)
      ensures !restored ==>
        && policy == old(policy) && present == old(present)
        && (store.File() == old(store.File()) || (!old(update.previous).found && store.File().Missing?))
    {
      restored := RestorePrevious(update, t);
      if restored {
        policy, present := update.previous.policy, update.previous.found;
      }
      CloseUpdate(update);
    }

    /** Restores the policy and its provenance exactly as they were at begin. Whether or not
        persistence fails, the lock is released and the token is dead. */
    method RollbackLocationUpdate(update: LocationUpdate, ghost t: Task) returns (restored: bool)
      requires Valid() && Known(update) && t.SelectPlace?
      requires token == update ==> Reached(Rollback(t, update.previous))
      modifies this, store`own, store`ownSeed, store`held, store`holder, store`calls
      modifies store`ownFailures, store.process, update
      ensures Valid() && tokens == old(tokens) && LocalityLeft()
      ensures store.Counts(restored || old(token) != update)
      ensures old(token) == update ==>
        !saving && token == null && !update.active && store.holder == null
        && Reached(if restored then Discard(t, false) else Unlock(t, true, false))
      ensures old(token) != update ==>
        !restored && Unchanged() && LockAsBefore()
        && (store.process != null ==> store.process.system == old(store.process.system))
      ensures restored ==>
        && store.Current() == old(update.previous) == Base(policy, present)
        && store.File() == (if old(update.previous).found then Doc(old(update.previous).policy) else Missing)
      ensures !restored ==>
        && policy == old(policy) && present == old(present)
        && (store.File() == old(store.File()) || (!old(update.previous).found && store.File().Missing?))
    {
      restored := false;
      if update.active && update.owner == this && saving {
        restored := Undo(update, t);
      }
    }
  }
}
