/** The zone table: its rows, the advisory nearest zone of a point, and the selector's list. */
module ZoneSearch {
  import opened Optional
  import opened Decimals
  import opened PathOrder
  import opened ZoneCoordinates

  const ID_CAPACITY := 128

  // ----- Circular distance

  function LongitudeDistance(left: real, right: real): real {
    var difference := left - right;
    var distance := if difference < 0.0 then -difference else difference;
    if distance > 180.0 then 360.0 - distance else distance
  }

  function Abs(x: real): real {
    if x < 0.0 then -x else x
  }

  predicate IsLongitude(x: real) {
    -180.0 <= x <= 180.0
  }

  /** The way from one longitude to the other that goes round `turns` whole times. */
  function Way(left: real, right: real, turns: int): real {
    Abs(left - right + 360.0 * turns as real)
  }

  /** On the circle of longitudes the distance is the shortest way round: it is realised by
      going round some whole number of times, and no number of times gives less. */
  lemma DistanceIsCircular(left: real, right: real, turns: int)
    requires IsLongitude(left) && IsLongitude(right)
    ensures 0.0 <= LongitudeDistance(left, right) <= 180.0
    ensures LongitudeDistance(left, right) <= Way(left, right, turns)
    ensures exists n: int :: LongitudeDistance(left, right) == Way(left, right, n)
  {
    var d := left - right;
    var n := if d > 180.0 then -1 else if d < -180.0 then 1 else 0;
    assert LongitudeDistance(left, right) == Way(left, right, n);
    if turns < n {
      assert turns as real <= n as real - 1.0;
    } else if turns > n {
      assert turns as real >= n as real + 1.0;
    }
  }

  lemma DistanceIsMetric(a: real, b: real, c: real)
    requires IsLongitude(a) && IsLongitude(b) && IsLongitude(c)
    ensures LongitudeDistance(a, b) == LongitudeDistance(b, a)
    ensures LongitudeDistance(a, c) <= LongitudeDistance(a, b) + LongitudeDistance(b, c)
    ensures LongitudeDistance(a, b) == 0.0 <==> a == b || Abs(a - b) == 360.0
  {
  }

  // ----- Rows

  function Lower(c: char): char {
    if 'A' <= c <= 'Z' then (c as int + 32) as char else c
  }

  predicate SameIgnoringCase(a: string, b: string) {
    |a| == |b| && forall i | 0 <= i < |a| :: Lower(a[i]) == Lower(b[i])
  }

  /** The pieces between separators; the empty text has no pieces. */
  function Split(text: string, separator: char): seq<string> {
    if text == [] then [] else Pieces(text, separator)
  }

  function Pieces(text: string, separator: char): (pieces: seq<string>)
    ensures pieces != []
  {
    if text == [] then [[]]
    else
      var rest := Pieces(text[1..], separator);
      if text[0] == separator then [[]] + rest else [[text[0]] + rest[0]] + rest[1..]
  }

  function Join(pieces: seq<string>, separator: char): string
    requires pieces != []
  {
    if |pieces| == 1 then pieces[0] else pieces[0] + [separator] + Join(pieces[1..], separator)
  }

  /** Splitting is the inverse of joining: nothing is lost, and no piece holds a separator. */
  lemma {:induction false} PiecesRejoin(text: string, separator: char)
    ensures Join(Pieces(text, separator), separator) == text
    ensures forall piece <- Pieces(text, separator) :: separator !in piece
  {
    if text != [] {
      var rest := Pieces(text[1..], separator);
      PiecesRejoin(text[1..], separator);
      assert text == [text[0]] + text[1..];
      if text[0] == separator {
        assert ([[]] + rest)[1..] == rest;
      } else {
        var pieces := [[text[0]] + rest[0]] + rest[1..];
        assert pieces[1..] == rest[1..];
      }
    }
  }

  /** Space, tab, line feed, form feed and carriage return, but not the vertical tab. */
  predicate Blank(c: char) {
    c as int in [32, 9, 10, 12, 13]
  }

  /** Without trailing white space. */
  function Chomped(text: string): string {
    if text != [] && Blank(text[|text| - 1]) then Chomped(text[..|text| - 1]) else text
  }

  predicate IdCharacter(c: char) {
    'A' <= c <= 'Z' || 'a' <= c <= 'z' || '0' <= c <= '9' || c in "/_-+"
  }

  /** No dot is an identifier character, so two of them cannot occur either. */
  predicate ValidId(id: string) {
    0 < |id| < ID_CAPACITY && forall i | 0 <= i < |id| :: IdCharacter(id[i])
  }

  predicate CountryMatches(field: string, country: string) {
    country != "" && exists part <- Split(field, ',') :: SameIgnoringCase(part, country)
  }

  datatype Row = Row(countries: string, coordinate: string, id: string)

  /** The row of a line that is neither empty nor a comment and has three fields. */
  function RowOf(line: string): Option<Row> {
    if line == [] || line[0] == '#' then None
    else
      var fields := Split(line, '\t');
      if |fields| < 3 then None else Some(Row(fields[0], fields[1], Chomped(fields[2])))
  }

  datatype Query = Query(country: string, latitude: real, longitude: real)

  datatype Candidate = Candidate(id: string, score: real)

  /** A row with a matching country, a parseable coordinate and a valid identifier, scored by
      the sum of the two angular distances. */
  function Scored(row: Row, q: Query): Option<Candidate> {
    var c := Coordinate(row.coordinate);
    if !CountryMatches(row.countries, q.country) || c.None? || !ValidId(row.id) then None
    else
      Some(Candidate(row.id,
                     Abs(c.value.0.Angle() - q.latitude)
                     + LongitudeDistance(c.value.1.Angle(), q.longitude)))
  }

  /** A row is scored by the difference of latitude and the shortest way round in longitude. */
  lemma ScoreIsDistance(row: Row, q: Query, latitude: Component, longitude: Component, turns: int)
    requires CountryMatches(row.countries, q.country) && ValidId(row.id) && IsLongitude(q.longitude)
    requires latitude.Allowed(90) && longitude.Allowed(180)
    requires row.coordinate == Written(latitude, 2) + Written(longitude, 3)
    ensures Scored(row, q).Some? && Scored(row, q).value.id == row.id
    ensures
      var along := Abs(latitude.Angle() - q.latitude);
      var score := Scored(row, q).value.score;
      && along <= score <= along + 180.0
      && score <= along + Way(longitude.Angle(), q.longitude, turns)
      && exists n: int :: score == along + Way(longitude.Angle(), q.longitude, n)
  {
    CoordinateIsExact(row.coordinate, latitude, longitude);
    DistanceIsCircular(longitude.Angle(), q.longitude, turns);
    var n: int :| LongitudeDistance(longitude.Angle(), q.longitude)
                    == Way(longitude.Angle(), q.longitude, n);
    assert Scored(row, q).value.score
             == Abs(latitude.Angle() - q.latitude) + Way(longitude.Angle(), q.longitude, n);
  }

  lemma {:induction false} FirstPiece(first: string, rest: string, separator: char)
    requires separator !in first
    ensures Pieces(first + [separator] + rest, separator) == [first] + Pieces(rest, separator)
  {
    var text := first + [separator] + rest;
    if first == [] {
      assert text[1..] == rest;
    } else {
      FirstPiece(first[1..], rest, separator);
      assert text[1..] == first[1..] + [separator] + rest;
      assert ([first[1..]] + Pieces(rest, separator))[1..] == Pieces(rest, separator);
      assert [first[0]] + first[1..] == first;
    }
  }

  lemma {:induction false} OnePiece(text: string, separator: char)
    requires separator !in text
    ensures Pieces(text, separator) == [text]
  {
    if text != [] {
      OnePiece(text[1..], separator);
      assert [text[0]] + text[1..] == text;
    }
  }

  /** The row of a table line: countries, coordinate and identifier between tabs, in this
      order; a line that begins with a hash is a comment. */
  lemma RowIsRead(countries: string, coordinate: string, id: string)
    requires '\t' !in countries && '\t' !in coordinate && '\t' !in id
    ensures
      var line := countries + "\t" + (coordinate + "\t" + id);
      RowOf(line) == if countries != "" && countries[0] == '#' then None
                     else Some(Row(countries, coordinate, Chomped(id)))
  {
    FirstPiece(countries, coordinate + "\t" + id, '\t');
    FirstPiece(coordinate, id, '\t');
    OnePiece(id, '\t');
  }

  function CandidateOf(line: string, q: Query): Option<Candidate> {
    var row := RowOf(line);
    if row.None? then None else Scored(row.value, q)
  }

  function Candidates(lines: seq<string>, q: Query): (cs: seq<Option<Candidate>>)
    ensures |cs| == |lines|
  {
    if lines == [] then []
    else Candidates(lines[..|lines| - 1], q) + [CandidateOf(lines[|lines| - 1], q)]
  }

  lemma {:induction false} CandidatesAt(lines: seq<string>, q: Query, i: nat)
    requires i < |lines|
    ensures Candidates(lines, q)[i] == CandidateOf(lines[i], q)
  {
    if i < |lines| - 1 {
      CandidatesAt(lines[..|lines| - 1], q, i);
    }
  }

  // ----- The nearest row

  /** The row beats every eligible row before it. */
  predicate Record(cs: seq<Option<Candidate>>, i: nat) {
    && i < |cs| && cs[i].Some?
    && forall j | 0 <= j < i && cs[j].Some? :: cs[i].value.score < cs[j].value.score
  }

  /** The first of the rows with the least score. */
  predicate Nearest(cs: seq<Option<Candidate>>, i: nat) {
    && Record(cs, i)
    && forall j | i < j < |cs| && cs[j].Some? :: cs[i].value.score <= cs[j].value.score
  }

  /** The identifier of the nearest row. */
  ghost predicate NearestId(cs: seq<Option<Candidate>>, id: string) {
    exists i: nat :: Nearest(cs, i) && cs[i].value.id == id
  }

  predicate AnyEligible(cs: seq<Option<Candidate>>) {
    exists i | 0 <= i < |cs| :: cs[i].Some?
  }

  /** Every record identifier fits the caller's buffer. */
  predicate RecordsFit(cs: seq<Option<Candidate>>, capacity: nat) {
    forall i | 0 <= i < |cs| && Record(cs, i) :: |cs[i].value.id| < capacity
  }

  /** The answer is unique, and there is one whenever a row is eligible. */
  lemma {:induction false} NearestIsDetermined(cs: seq<Option<Candidate>>, i: nat, j: nat)
    ensures Nearest(cs, i) && Nearest(cs, j) ==> i == j
    ensures AnyEligible(cs) <==> exists n: nat :: Nearest(cs, n)
  {
    if AnyEligible(cs) {
      var n := Least(cs);
      assert Nearest(cs, n);
    }
  }

  lemma {:induction false} Least(cs: seq<Option<Candidate>>) returns (n: nat)
    requires AnyEligible(cs)
    ensures Nearest(cs, n)
  {
    var last := |cs| - 1;
    var front := cs[..last];
    if AnyEligible(front) {
      n := Least(front);
      if cs[last].Some? && cs[last].value.score < cs[n].value.score {
        n := last;
      }
    } else {
      n := last;
      assert forall j | 0 <= j < last :: front[j] == cs[j];
    }
  }

  /** A buffer of the standard capacity always suffices. */
  lemma StandardCapacityFits(lines: seq<string>, q: Query)
    ensures RecordsFit(Candidates(lines, q), ID_CAPACITY)
  {
    forall i: nat | i < |lines| && Candidates(lines, q)[i].Some?
      ensures |Candidates(lines, q)[i].value.id| < ID_CAPACITY
    {
      CandidatesAt(lines, q, i);
    }
  }

  method CountryFieldMatches(field: string, country: string) returns (matches: bool)
    ensures matches <==> CountryMatches(field, country)
  {
    if country == "" {
      return false;
    }
    var parts := Split(field, ',');
    for index := 0 to |parts|
      invariant forall i | 0 <= i < index :: !SameIgnoringCase(parts[i], country)
    {
      if SameIgnoringCase(parts[index], country) {
        return true;
      }
    }
    return false;
  }

  method ScoreRow(row: Row, q: Query) returns (c: Option<Candidate>)
    ensures c == Scored(row, q)
  {
    var matches := CountryFieldMatches(row.countries, q.country);
    if !matches {
      return None;
    }
    var point := ParseZoneCoordinate(row.coordinate);
    if point.None? || !ValidId(row.id) {
      return None;
    }
    var latitudeDistance := Abs(point.value.0 - q.latitude);
    var score := latitudeDistance + LongitudeDistance(point.value.1, q.longitude);
    return Some(Candidate(row.id, score));
  }

  /** What the fields of one line offer. */
  method ReadCandidate(lines: seq<string>, index: nat, q: Query) returns (c: Option<Candidate>)
    requires index < |lines|
    ensures c == Candidates(lines, q)[index]
  {
    CandidatesAt(lines, q, index);
    var row := RowOf(lines[index]);
    if row.None? {
      return None;
    }
    c := ScoreRow(row.value, q);
  }

  /** Searches one table. It succeeds exactly when some row is eligible and every record on
      the way fits, and then it answers with the first row of least score. */
  method NearestTimezoneInFile(lines: seq<string>, q: Query, capacity: nat)
    returns (found: Option<string>, ghost best: nat)
    ensures found.Some? <==>
      AnyEligible(Candidates(lines, q)) && RecordsFit(Candidates(lines, q), capacity)
    ensures found.Some? ==> NearestId(Candidates(lines, q), found.value)
    ensures found.Some? ==> Nearest(Candidates(lines, q), best)
  {
    ghost var cs := Candidates(lines, q);
    found, best := None, 0;
    var score := 0.0;
    for index := 0 to |lines|
      invariant found.None? ==> forall j | 0 <= j < index :: cs[j].None?
      invariant found.Some? ==>
        && best < index && Record(cs, best) && cs[best] == Some(Candidate(found.value, score))
        && (forall j | best < j < index && cs[j].Some? :: score <= cs[j].value.score)
      invariant forall j | 0 <= j < index && Record(cs, j) :: |cs[j].value.id| < capacity
    {
      var candidate := ReadCandidate(lines, index, q);
      if candidate.Some? && (found.None? || candidate.value.score < score) {
        assert Record(cs, index);
        if |candidate.value.id| >= capacity {
          return None, 0;
        }
        found, best, score := Some(candidate.value.id), index, candidate.value.score;
      }
    }
  }

  /** The checks made before any table is read. */
  predicate Sensible(q: Query, capacity: nat) {
    capacity > 0 && -90.0 <= q.latitude <= 90.0 && IsLongitude(q.longitude)
  }

  /** No readable table has an eligible row. */
  predicate NoneEligible(tables: seq<Option<string>>, q: Query) {
    forall t | 0 <= t < |tables| && tables[t].Some? ::
      !AnyEligible(Candidates(Split(tables[t].value, '\n'), q))
  }

  /** Tries the tables in turn; a table that cannot be read is skipped. With the standard
      capacity the answer is from the first table with an eligible row, and the search fails
      only when there is none. */
  method NearestTimezone(tables: seq<Option<string>>, q: Query, capacity: nat)
    returns (found: Option<string>)
    ensures found.Some? ==>
      && Sensible(q, capacity)
      && exists table | 0 <= table < |tables| ::
           && tables[table].Some?
           && NearestId(Candidates(Split(tables[table].value, '\n'), q), found.value)
           && (capacity >= ID_CAPACITY ==> NoneEligible(tables[..table], q))
    ensures found.None? && capacity >= ID_CAPACITY && Sensible(q, capacity) ==>
      NoneEligible(tables, q)
  {
    if capacity == 0 || q.latitude < -90.0 || q.latitude > 90.0
       || q.longitude < -180.0 || q.longitude > 180.0
    {
      return None;
    }
    for index := 0 to |tables|
      invariant capacity >= ID_CAPACITY ==> NoneEligible(tables[..index], q)
    {
      if tables[index].Some? {
        var lines := Split(tables[index].value, '\n');
        ghost var best;
        found, best := NearestTimezoneInFile(lines, q, capacity);
        if found.Some? {
          assert NearestId(Candidates(Split(tables[index].value, '\n'), q), found.value);
          return;
        }
        StandardCapacityFits(lines, q);
      }
    }
    assert tables[..|tables|] == tables;
    return None;
  }

  // ----- The selector's list

  function ListedId(line: string): Option<string> {
    var row := RowOf(line);
    if row.Some? && ValidId(row.value.id) then Some(row.value.id) else None
  }

  /** Some line of the table offers the identifier. */
  predicate Listed(lines: seq<string>, id: string) {
    lines != [] && (ListedId(lines[|lines| - 1]) == Some(id) || Listed(lines[..|lines| - 1], id))
  }

  lemma {:induction false} ListedIsExact(lines: seq<string>, id: string)
    ensures Listed(lines, id) <==> exists i | 0 <= i < |lines| :: ListedId(lines[i]) == Some(id)
  {
    if lines != [] {
      var front := lines[..|lines| - 1];
      ListedIsExact(front, id);
      assert forall i | 0 <= i < |front| :: front[i] == lines[i];
    }
  }

  lemma MoreListed(lines: seq<string>, index: nat, id: string)
    requires index < |lines|
    ensures Listed(lines[..index + 1], id) <==>
              Listed(lines[..index], id) || ListedId(lines[index]) == Some(id)
  {
    assert lines[..index + 1][..index] == lines[..index];
  }

  method ReadId(line: string) returns (id: Option<string>)
    ensures id == ListedId(line)
  {
    return ListedId(line);
  }

  /** The identifiers of a table, each once, after `Etc/UTC`. */
  method CollectIds(lines: seq<string>) returns (listed: seq<string>)
    ensures Distinct(listed)
    ensures forall id :: id in listed <==> id == "Etc/UTC" || Listed(lines, id)
  {
    listed := ["Etc/UTC"];
    for index := 0 to |lines|
      invariant Distinct(listed)
      invariant forall id :: id in listed <==> id == "Etc/UTC" || Listed(lines[..index], id)
    {
      var id := ReadId(lines[index]);
      ghost var before := listed;
      if id.Some? && id.value !in listed {
        listed := listed + [id.value];
      }
      forall x
        ensures x in listed <==> x == "Etc/UTC" || Listed(lines[..index + 1], x)
      {
        MoreListed(lines, index, x);
        assert x in listed <==> x in before || Some(x) == id;
      }
    }
    assert lines[..|lines|] == lines;
  }

  /** The sorted, duplicate-free list of the table's valid identifiers, with `Etc/UTC` and
      the current identifier always among them. */
  method ListTimezonesFromFile(lines: Option<seq<string>>, current: Option<string>)
    returns (zones: seq<string>)
    ensures Ordered(zones) && Distinct(zones)
    ensures forall id :: id in zones <==>
      || id == "Etc/UTC" || (current == Some(id) && ValidId(id))
      || (lines.Some? && exists i | 0 <= i < |lines.value| :: ListedId(lines.value[i]) == Some(id))
  {
    var read := if lines.Some? then lines.value else [];
    var listed := CollectIds(read);
    forall id
      ensures Listed(read, id) <==> exists i | 0 <= i < |read| :: ListedId(read[i]) == Some(id)
    {
      ListedIsExact(read, id);
    }
    ghost var before := listed;
    if current.Some? && ValidId(current.value) && current.value !in listed {
      listed := listed + [current.value];
    }
    assert forall id :: id in listed <==> id in before || (current == Some(id) && ValidId(id));
    zones := Sort(listed);
    SortOrders(listed);
    DistinctPermutes(listed, zones);
    SameMembers(listed, zones);
  }

  lemma SameMembers(listed: seq<string>, zones: seq<string>)
    requires multiset(listed) == multiset(zones)
    ensures forall id :: id in zones <==> id in listed
  {
    forall id
      ensures id in zones <==> id in listed
    {
      assert id in multiset(zones) <==> id in multiset(listed);
    }
  }
}
