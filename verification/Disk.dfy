/** The three durable files of a locality transaction and what recovery makes of them. */
module Disk {
  import opened Optional
  import opened Temporal

  /** What a file offers a reader; a read may fail besides, which is an `Outcome`. */
  datatype File<+T> = Missing | Invalid | Doc(value: T)

  /** How one attempted primitive went. `Partly` is a policy save that took effect while some
      desktop key was not written; `FailGone` is an unlink that reports failure after the name
      is gone (the directory could not be made durable); `Crash` kills the process. */
  datatype Outcome = Ok | Partly(clock: bool, seconds: bool) | Fail | FailGone | Crash

  predicate Saved(o: Outcome) {
    o.Ok? || o.Partly?
  }

  /** Desktop preferences that seed the defaults when there is no valid policy document. Where
      the desktop has the keys, every save writes them. */
  datatype Seed = Seed(clock: string, seconds: bool, mirrored: bool)

  /** Only these clocks have a desktop equivalent. */
  predicate Conventional(clock: string) {
    clock == "standard-24" || clock == "standard-12"
  }

  /** The desktop preferences after a save of `p`; each key may fail on its own. */
  function Mirrored(seed: Seed, p: Policy, o: Outcome): Seed {
    var clock := o.Ok? || (o.Partly? && o.clock);
    var seconds := o.Ok? || (o.Partly? && o.seconds);
    if !seed.mirrored then seed
    else
      seed.(clock := if clock && Conventional(p.clock) then p.clock else seed.clock,
            seconds := if seconds then p.seconds else seed.seconds)
  }

  /** Saving `p` writes nothing new to the desktop, whichever keys can be written. */
  predicate Steady(seed: Seed, p: Policy) {
    seed.mirrored ==>
      (Conventional(p.clock) ==> p.clock == seed.clock) && p.seconds == seed.seconds
  }

  /** A fully mirrored save leaves the desktop as it was exactly for such a policy, and a
      partly mirrored one then too. */
  lemma SteadyIsExact(seed: Seed, p: Policy, o: Outcome)
    ensures Mirrored(seed, p, Ok) == seed <==> Steady(seed, p)
    ensures Steady(seed, p) ==> Mirrored(seed, p, o) == seed
  {
  }

  datatype Disk = Disk(
    policy: File<Policy>, metadata: File<Metadata>, journal: File<Metadata>, seed: Seed)

  /** A loaded policy and whether it came from an explicit document. */
  datatype Base = Base(policy: Policy, found: bool)

  function Fallback(seed: Seed): Policy {
    Policy(seed.clock, "gregorian", seed.seconds, NOWHERE)
  }

  function Loaded(d: Disk): Base {
    if d.policy.Doc? then Base(d.policy.value, true) else Base(Fallback(d.seed), false)
  }

  function Effective(d: Disk): Policy {
    Loaded(d).policy
  }

  function Unlinked<T>(f: File<T>, o: Outcome): File<T> {
    if o.Ok? || o.FailGone? then Missing else f
  }

  /** The policy document on disk, if any, is one the serializer wrote. */
  predicate Canonical(d: Disk) {
    d.policy.Doc? ==> Stored(d.policy.value) == d.policy.value
  }

  lemma EffectiveIsStored(d: Disk)
    requires Canonical(d)
    ensures Stored(Effective(d)) == Effective(d)
  {
    assert Round6(0.0) == 0.0 by { MicroOfMultiple(0); }
  }

  /** Whatever record a file offers its reader is one the writer accepts. */
  predicate Legible(d: Disk) {
    && (d.metadata.Doc? ==> ValidRecord(d.metadata.value))
    && (d.journal.Doc? ==> ValidRecord(d.journal.value))
  }

  // ----- Pairs

  /** A policy location and a metadata file that may stand together. */
  predicate Paired(l: Location, metadata: File<Metadata>) {
    match metadata
    case Missing => true
    case Invalid => l.configured
    case Doc(m) => Matches(l, m)
  }

  predicate Coherent(d: Disk) {
    Paired(Effective(d).place, d.metadata)
  }

  predicate JournalMatches(d: Disk) {
    d.journal.Doc? && Matches(Effective(d).place, d.journal.value)
  }

  /** Recovery started on this disk would end coherent. */
  predicate Recoverable(d: Disk) {
    !Effective(d).place.configured || JournalMatches(d) || Coherent(d)
  }

  /** What an undisturbed recovery leaves on disk. */
  function Recovered(d: Disk): Disk {
    if JournalMatches(d) then d.(metadata := d.journal, journal := Missing)
    else if !Effective(d).place.configured then d.(metadata := Missing, journal := Missing)
    else d.(journal := Missing)
  }

  /** Recovery reaches a coherent pair exactly from the recoverable disks. */
  lemma RecoveredIsCoherent(d: Disk)
    ensures Coherent(Recovered(d)) <==> Recoverable(d)
  {
    assert Effective(Recovered(d)) == Effective(d);
  }

  lemma RecoveredIsIdempotent(d: Disk)
    ensures Recovered(Recovered(d)) == Recovered(d)
    ensures Recovered(d).policy == d.policy
    ensures Coherent(d) && d.journal.Missing? ==> Recovered(d) == d
  {
    assert Effective(Recovered(d)) == Effective(d);
  }
}
