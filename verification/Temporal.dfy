/** The temporal policy document, the locality record, and the edits writers make.

    Coordinates are real numbers. A policy document stores them with six decimals, so a
    publication rounds them; locality metadata stores the full value. */
module Temporal {
  import opened Optional

  /** The part of the policy that is paired with the locality metadata. */
  datatype Location = Location(configured: bool, latitude: real, longitude: real)

  datatype Policy = Policy(clock: string, calendar: string, seconds: bool, place: Location)

  /** One record of `location.ini` or `location.pending`. */
  datatype Metadata = Metadata(
    name: string, country: string, zone: string, latitude: real, longitude: real)

  /** What the metadata writer accepts; its reader refuses everything else. */
  predicate ValidRecord(m: Metadata) {
    && 0 < |m.name| < 256 && |m.country| < 8 && |m.zone| < 128
    && -90.0 <= m.latitude <= 90.0 && -180.0 <= m.longitude <= 180.0
  }

  /** Field mutations. `Unplace` keeps the coordinates, as `--clear-location` does. */
  datatype Edit =
    | SetClock(clock: string)
    | SetCalendar(calendar: string)
    | SetSeconds(seconds: bool)
    | SetPlace(latitude: real, longitude: real)
    | Unplace

  const NOWHERE := Location(false, 0.0, 0.0)

  // ----- Six-decimal storage

  function Micro(x: real): int {
    (x * 1000000.0 + 0.5).Floor
  }

  function Round6(x: real): real {
    Micro(x) as real / 1000000.0
  }

  function StoredPlace(l: Location): Location {
    l.(latitude := Round6(l.latitude), longitude := Round6(l.longitude))
  }

  /** The policy that reading back a freshly written document yields. */
  function Stored(p: Policy): Policy {
    p.(place := StoredPlace(p.place))
  }

  lemma MicroOfMultiple(k: int)
    ensures Micro(k as real / 1000000.0) == k
  {
    var x := k as real / 1000000.0;
    assert x * 1000000.0 == k as real;
  }

  /** Writing back a policy that was read from a document changes nothing. */
  lemma StoredIsStable(p: Policy)
    ensures Stored(Stored(p)) == Stored(p)
  {
    MicroOfMultiple(Micro(p.place.latitude));
    MicroOfMultiple(Micro(p.place.longitude));
  }

  // ----- Closeness, the test that pairs a policy with a record

  predicate Close(left: real, right: real) {
    var difference := left - right;
    (if difference < 0.0 then -difference else difference) < 0.000001
  }

  predicate Matches(l: Location, m: Metadata) {
    l.configured && Close(l.latitude, m.latitude) && Close(l.longitude, m.longitude)
  }

  /** The six-decimal document of a record's own coordinates is close to that record. */
  lemma StoredMatches(m: Metadata)
    ensures Matches(StoredPlace(Location(true, m.latitude, m.longitude)), m)
  {
  }

  // ----- Applying edits

  function Apply(e: Edit, p: Policy): Policy {
    match e
    case SetClock(c) => p.(clock := c)
    case SetCalendar(c) => p.(calendar := c)
    case SetSeconds(b) => p.(seconds := b)
    case SetPlace(lat, lon) => p.(place := Location(true, lat, lon))
    case Unplace => p.(place := p.place.(configured := false))
  }

  function ApplyAll(es: seq<Edit>, p: Policy): Policy {
    if es == [] then p else Apply(es[|es| - 1], ApplyAll(es[..|es| - 1], p))
  }

  lemma SingleEdit(e: Edit, p: Policy)
    ensures ApplyAll([e], p) == Apply(e, p)
  {
    assert [e][..0] == [];
    assert ApplyAll([e][..0], p) == p;
  }

  predicate MovesPlace(e: Edit) {
    e.SetPlace? || e.Unplace?
  }

  predicate FieldOnly(es: seq<Edit>) {
    forall e <- es :: !MovesPlace(e)
  }

  /** The last location edit of a batch, if there is one. */
  function LastMove(es: seq<Edit>): (r: Option<Edit>)
    ensures r.None? <==> FieldOnly(es)
    ensures r.Some? ==> r.value in es && MovesPlace(r.value)
  {
    if es == [] then None
    else if MovesPlace(es[|es| - 1]) then Some(es[|es| - 1])
    else
      var r := LastMove(es[..|es| - 1]);
      assert forall e <- es :: e in es[..|es| - 1] || e == es[|es| - 1];
      r
  }

  /** The last location option of a batch wins, and nothing else decides the location. */
  lemma {:induction false} LastMoveWins(es: seq<Edit>, p: Policy)
    ensures match LastMove(es)
            case None => ApplyAll(es, p).place == p.place
            case Some(SetPlace(lat, lon)) => ApplyAll(es, p).place == Location(true, lat, lon)
            case Some(_) => !ApplyAll(es, p).place.configured
  {
    if es != [] {
      LastMoveWins(es[..|es| - 1], p);
    }
  }
}
