/** Manual time entry: one field grammar, three clocks, exact microseconds of the day. */
module ManualTime {
  import opened Optional
  import opened Decimals

  const US_PER_SECOND := 1000000
  const US_PER_DECIMAL_SECOND := 864000
  const US_PER_DAY := 86400 * US_PER_SECOND

  // ----- Fields

  predicate IsField(text: string) {
    1 <= |text| <= 2 && AllDigits(text)
  }

  predicate Starts(text: string, c: char) {
    text != [] && text[0] == c
  }

  predicate StartsWithDigit(text: string) {
    text != [] && IsDigit(text[0])
  }

  /** The length of a leading field; zero when there is none, or a third digit follows. */
  function FieldLength(text: string): (n: nat)
    ensures n <= 2 && n <= |text| && AllDigits(text[..n])
  {
    if !StartsWithDigit(text) then 0
    else if !StartsWithDigit(text[1..]) then 1
    else if !StartsWithDigit(text[2..]) then 2
    else 0
  }

  /** A field's value and what follows it. */
  function Field(text: string): Option<(nat, string)> {
    var n := FieldLength(text);
    if n == 0 then None else Some((Value(text[..n]), text[n..]))
  }

  datatype Reading = Reading(hour: nat, minute: nat, second: nat, rest: string)

  /** Seconds after a colon; without one, zero. */
  function Seconds(text: string): Option<(nat, string)> {
    if Starts(text, ':') then Field(text[1..]) else Some((0, text))
  }

  /** Hour, minute and, after another colon, seconds. */
  function Fields(text: string): Option<Reading> {
    var hour := Field(text);
    if hour.None? || !Starts(hour.value.1, ':') then None
    else
      var minute := Field(hour.value.1[1..]);
      if minute.None? then None
      else
        var second := Seconds(minute.value.1);
        if second.None? then None
        else Some(Reading(hour.value.0, minute.value.0, second.value.0, second.value.1))
  }

  /** The grammar: fields of one or two digits between colons, the seconds optional. */
  predicate Spelled(text: string, hour: string, minute: string, second: Option<string>, rest: string) {
    && IsField(hour) && IsField(minute) && (second.Some? ==> IsField(second.value))
    && text == hour + ":" + minute + (if second.Some? then ":" + second.value else "") + rest
    && !StartsWithDigit(rest) && (second.None? ==> !Starts(rest, ':'))
  }

  function SecondOf(second: Option<string>): nat
    requires second.Some? ==> IsField(second.value)
  {
    if second.Some? then Value(second.value) else 0
  }

  lemma FieldIsExact(field: string, rest: string)
    requires IsField(field) && !StartsWithDigit(rest)
    ensures Field(field + rest) == Some((Value(field), rest))
  {
    var text := field + rest;
    assert text[..|field|] == field && text[|field|..] == rest;
    assert text[0] == field[0];
    if |field| == 1 {
      assert text[1..] == rest;
    } else {
      assert text[1..][0] == field[1] && text[2..] == rest;
    }
  }

  lemma FieldSplits(text: string) returns (field: string, rest: string)
    requires Field(text).Some?
    ensures IsField(field) && text == field + rest && !StartsWithDigit(rest)
    ensures Field(text) == Some((Value(field), rest))
  {
    var n := FieldLength(text);
    field, rest := text[..n], text[n..];
  }

  function Tail(second: Option<string>, rest: string): string {
    if second.Some? then ":" + (second.value + rest) else rest
  }

  lemma TailIsRead(second: Option<string>, rest: string)
    requires second.Some? ==> IsField(second.value)
    requires !StartsWithDigit(rest) && (second.None? ==> !Starts(rest, ':'))
    ensures Seconds(Tail(second, rest)) == Some((SecondOf(second), rest))
    ensures !StartsWithDigit(Tail(second, rest))
  {
    if second.Some? {
      assert Tail(second, rest)[1..] == second.value + rest;
      FieldIsExact(second.value, rest);
    }
  }

  lemma SpelledIsRead(text: string, hour: string, minute: string, second: Option<string>, rest: string)
    requires Spelled(text, hour, minute, second, rest)
    ensures Fields(text) == Some(Reading(Value(hour), Value(minute), SecondOf(second), rest))
  {
    var tail := Tail(second, rest);
    var after := ":" + (minute + tail);
    Associate(text, hour, minute, second, rest);
    TailIsRead(second, rest);
    FieldIsExact(hour, after);
    assert after[1..] == minute + tail;
    FieldIsExact(minute, tail);
  }

  lemma Associate(text: string, hour: string, minute: string, second: Option<string>, rest: string)
    requires text == hour + ":" + minute + (if second.Some? then ":" + second.value else "") + rest
    ensures text == hour + (":" + (minute + Tail(second, rest)))
  {
  }

  lemma JoinsUp(text: string, hour: string, minute: string, second: Option<string>,
                afterHour: string, afterMinute: string, rest: string)
    requires text == hour + (":" + afterHour) && afterHour == minute + afterMinute
    requires afterMinute == Tail(second, rest)
    ensures text == hour + ":" + minute + (if second.Some? then ":" + second.value else "") + rest
  {
  }

  lemma ReadIsSpelled(text: string) returns (hour: string, minute: string, second: Option<string>)
    requires Fields(text).Some?
    ensures
      var r := Fields(text).value;
      && Spelled(text, hour, minute, second, r.rest)
      && r == Reading(Value(hour), Value(minute), SecondOf(second), r.rest)
  {
    var afterHour, afterMinute, rest;
    hour, afterHour := FieldSplits(text);
    var tail := afterHour[1..];
    assert afterHour == ":" + tail;
    minute, afterMinute := FieldSplits(tail);
    if Starts(afterMinute, ':') {
      var last := afterMinute[1..];
      assert afterMinute == ":" + last;
      var field;
      field, rest := FieldSplits(last);
      second := Some(field);
    } else {
      second, rest := None, afterMinute;
    }
    JoinsUp(text, hour, minute, second, tail, afterMinute, rest);
    assert Fields(text).value.rest == rest;
  }

  /** The text spells this reading in some way. */
  ghost predicate Spells(text: string, r: Reading) {
    exists hour, minute, second ::
      && Spelled(text, hour, minute, second, r.rest)
      && r == Reading(Value(hour), Value(minute), SecondOf(second), r.rest)
  }

  /** The reader accepts exactly the grammar. */
  lemma FieldsAreExact(text: string, r: Reading)
    ensures Fields(text) == Some(r) <==> Spells(text, r)
  {
    if Fields(text) == Some(r) {
      var hour, minute, second := ReadIsSpelled(text);
    }
    if hour, minute, second :|
      && Spelled(text, hour, minute, second, r.rest)
      && r == Reading(Value(hour), Value(minute), SecondOf(second), r.rest)
    {
      SpelledIsRead(text, hour, minute, second, r.rest);
    }
  }

  /** No field is larger than two digits allow. */
  lemma FieldsAreSmall(text: string, r: Reading)
    requires Fields(text) == Some(r)
    ensures r.hour <= 99 && r.minute <= 99 && r.second <= 99
  {
    var hour, minute, second := ReadIsSpelled(text);
    FieldIsSmall(hour);
    FieldIsSmall(minute);
    if second.Some? {
      FieldIsSmall(second.value);
    }
  }

  lemma FieldIsSmall(text: string)
    requires IsField(text)
    ensures Value(text) <= 99
  {
    ValueIsBounded(text);
    assert Pow10(1) == 10 && Pow10(2) == 100;
  }

  // ----- Three clocks

  function Conventional(hour: nat, minute: nat, second: nat): nat {
    (hour * 3600 + minute * 60 + second) * US_PER_SECOND
  }

  function Parse24(text: string): Option<nat> {
    var r := Fields(text);
    if r.None? || r.value.rest != "" || r.value.hour > 23 || r.value.minute > 59 || r.value.second > 59
    then None
    else Some(Conventional(r.value.hour, r.value.minute, r.value.second))
  }

  function WithoutBlanks(text: string): string {
    if Starts(text, ' ') || Starts(text, '\t') then WithoutBlanks(text[1..]) else text
  }

  predicate Meridiem(text: string, letter: char) {
    |text| == 2 && (text[0] == letter || text[0] as int == letter as int + 32)
    && (text[1] == 'M' || text[1] == 'm')
  }

  function Hour12(hour: nat, afternoon: bool): nat {
    hour % 12 + (if afternoon then 12 else 0)
  }

  function Parse12(text: string): Option<nat> {
    var r := Fields(text);
    if r.None? || r.value.hour < 1 || r.value.hour > 12 || r.value.minute > 59 || r.value.second > 59
    then None
    else
      var suffix := WithoutBlanks(r.value.rest);
      if !Meridiem(suffix, 'A') && !Meridiem(suffix, 'P') then None
      else
        Some(Conventional(Hour12(r.value.hour, Meridiem(suffix, 'P')), r.value.minute, r.value.second))
  }

  function ParseDecimal(text: string): Option<nat> {
    var r := Fields(text);
    if r.None? || r.value.rest != "" || r.value.hour > 9 then None
    else
      var us := (r.value.hour * 10000 + r.value.minute * 100 + r.value.second) * US_PER_DECIMAL_SECOND;
      if us < US_PER_DAY then Some(us) else None
  }

  // ----- What each parser accepts

  /** Hours, minutes and optional seconds within range, and nothing after them. */
  ghost predicate Spells24(text: string, r: Reading) {
    Spells(text, r) && r.rest == "" && r.hour <= 23 && r.minute <= 59 && r.second <= 59
  }

  /** Hours from one to twelve, then blanks, then a meridiem in any case. */
  ghost predicate Spells12(text: string, r: Reading) {
    && Spells(text, r) && 1 <= r.hour <= 12 && r.minute <= 59 && r.second <= 59
    && (Meridiem(WithoutBlanks(r.rest), 'A') || Meridiem(WithoutBlanks(r.rest), 'P'))
  }

  /** Decimal hours up to nine; every two-digit minute and second is in range. */
  ghost predicate SpellsDecimal(text: string, r: Reading) {
    Spells(text, r) && r.rest == "" && r.hour <= 9
  }

  function Time12(r: Reading): nat {
    Conventional(Hour12(r.hour, Meridiem(WithoutBlanks(r.rest), 'P')), r.minute, r.second)
  }

  function DecimalTime(r: Reading): nat {
    (r.hour * 10000 + r.minute * 100 + r.second) * US_PER_DECIMAL_SECOND
  }

  lemma Accepts24(text: string, us: nat)
    ensures Parse24(text) == Some(us) <==>
              exists r :: Spells24(text, r) && us == Conventional(r.hour, r.minute, r.second)
    ensures Parse24(text) == Some(us) ==> us < US_PER_DAY
  {
    if Parse24(text) == Some(us) {
      FieldsAreExact(text, Fields(text).value);
      assert Spells24(text, Fields(text).value);
    }
    if r :| Spells24(text, r) && us == Conventional(r.hour, r.minute, r.second) {
      FieldsAreExact(text, r);
    }
  }

  lemma Accepts12(text: string, us: nat)
    ensures Parse12(text) == Some(us) <==> exists r :: Spells12(text, r) && us == Time12(r)
    ensures Parse12(text) == Some(us) ==> us < US_PER_DAY
  {
    if Parse12(text) == Some(us) {
      FieldsAreExact(text, Fields(text).value);
      assert Spells12(text, Fields(text).value);
    }
    if r :| Spells12(text, r) && us == Time12(r) {
      FieldsAreExact(text, r);
    }
  }

  lemma AcceptsDecimal(text: string, us: nat)
    ensures ParseDecimal(text) == Some(us) <==>
              exists r :: SpellsDecimal(text, r) && us == DecimalTime(r)
    ensures ParseDecimal(text) == Some(us) ==> us < US_PER_DAY
  {
    if ParseDecimal(text) == Some(us) {
      FieldsAreExact(text, Fields(text).value);
      assert SpellsDecimal(text, Fields(text).value);
    }
    if r :| SpellsDecimal(text, r) && us == DecimalTime(r) {
      FieldsAreExact(text, r);
      FieldsAreSmall(text, r);
      DecimalFits(r);
    }
  }

  lemma DecimalFits(r: Reading)
    requires r.hour <= 9 && r.minute <= 99 && r.second <= 99
    ensures DecimalTime(r) < US_PER_DAY
  {
  }

  // ----- Canonical spellings

  function Clock(hour: nat, minute: nat, second: nat): string {
    Digits(hour, 2) + ":" + Digits(minute, 2) + ":" + Digits(second, 2)
  }

  function Print24(seconds: nat): string {
    Clock(seconds / 3600, seconds / 60 % 60, seconds % 60)
  }

  function Print12(seconds: nat): string {
    var hour := seconds / 3600;
    Clock(Shown12(hour), seconds / 60 % 60, seconds % 60)
    + Suffix(hour >= 12)
  }

  function PrintDecimal(seconds: nat): string {
    Clock(seconds / 10000, seconds / 100 % 100, seconds % 100)
  }

  lemma ClockIsRead(hour: nat, minute: nat, second: nat, rest: string)
    requires hour < 100 && minute < 100 && second < 100 && !StartsWithDigit(rest)
    ensures Fields(Clock(hour, minute, second) + rest) == Some(Reading(hour, minute, second, rest))
  {
    TwoDigits(hour);
    TwoDigits(minute);
    TwoDigits(second);
    var text := Clock(hour, minute, second) + rest;
    var h, m, s := Digits(hour, 2), Digits(minute, 2), Some(Digits(second, 2));
    assert text == h + ":" + m + (":" + s.value) + rest;
    SpelledIsRead(text, h, m, s, rest);
  }

  lemma SecondsSplit(seconds: nat)
    requires seconds < 86400
    ensures
      var hour, minute, second := seconds / 3600, seconds / 60 % 60, seconds % 60;
      hour <= 23 && Conventional(hour, minute, second) == seconds * US_PER_SECOND
  {
    var minutes := seconds / 60;
    assert seconds == minutes * 60 + seconds % 60 && minutes == minutes / 60 * 60 + minutes % 60;
    assert seconds / 3600 == minutes / 60;
  }

  lemma ParseClock24(hour: nat, minute: nat, second: nat)
    requires hour <= 23 && minute <= 59 && second <= 59
    ensures Parse24(Clock(hour, minute, second)) == Some(Conventional(hour, minute, second))
  {
    assert Clock(hour, minute, second) + "" == Clock(hour, minute, second);
    ClockIsRead(hour, minute, second, "");
  }

  /** Parsing inverts printing at every second of the day. */
  lemma RoundTrip24(seconds: nat)
    requires seconds < 86400
    ensures Parse24(Print24(seconds)) == Some(seconds * US_PER_SECOND)
  {
    SecondsSplit(seconds);
    ParseClock24(seconds / 3600, seconds / 60 % 60, seconds % 60);
  }

  function Shown12(hour: nat): nat {
    if hour % 12 == 0 then 12 else hour % 12
  }

  lemma ShownHour(hour: nat)
    requires hour <= 23
    ensures 1 <= Shown12(hour) <= 12 && Hour12(Shown12(hour), hour >= 12) == hour
  {
  }

  function Suffix(afternoon: bool): string {
    if afternoon then " PM" else " AM"
  }

  lemma SuffixTells(afternoon: bool)
    ensures
      var suffix := WithoutBlanks(Suffix(afternoon));
      && !StartsWithDigit(Suffix(afternoon)) && Meridiem(suffix, if afternoon then 'P' else 'A')
      && Meridiem(suffix, 'P') == afternoon
  {
    assert Suffix(afternoon)[1..] == if afternoon then "PM" else "AM";
  }

  lemma ParseClock12(shown: nat, minute: nat, second: nat, afternoon: bool)
    requires 1 <= shown <= 12 && minute <= 59 && second <= 59
    ensures
      Parse12(Clock(shown, minute, second) + Suffix(afternoon))
        == Some(Conventional(Hour12(shown, afternoon), minute, second))
  {
    SuffixTells(afternoon);
    ClockIsRead(shown, minute, second, Suffix(afternoon));
  }

  lemma RoundTrip12(seconds: nat)
    requires seconds < 86400
    ensures Parse12(Print12(seconds)) == Some(seconds * US_PER_SECOND)
  {
    var hour := seconds / 3600;
    SecondsSplit(seconds);
    ShownHour(hour);
    ParseClock12(Shown12(hour), seconds / 60 % 60, seconds % 60, hour >= 12);
  }

  /** The two spellings of one second agree. */
  lemma ClocksAgree(seconds: nat)
    requires seconds < 86400
    ensures Parse12(Print12(seconds)) == Parse24(Print24(seconds))
  {
    RoundTrip12(seconds);
    RoundTrip24(seconds);
  }

  lemma ParseDecimalClock(hour: nat, minute: nat, second: nat)
    requires hour <= 9 && minute <= 99 && second <= 99
    ensures ParseDecimal(Clock(hour, minute, second))
              == Some((hour * 10000 + minute * 100 + second) * US_PER_DECIMAL_SECOND)
  {
    assert Clock(hour, minute, second) + "" == Clock(hour, minute, second);
    ClockIsRead(hour, minute, second, "");
  }

  lemma DecimalSplit(seconds: nat)
    requires seconds < 100000
    ensures
      var hour, minute, second := seconds / 10000, seconds / 100 % 100, seconds % 100;
      hour <= 9 && hour * 10000 + minute * 100 + second == seconds
  {
    var hundreds := seconds / 100;
    assert seconds == hundreds * 100 + seconds % 100;
    assert hundreds == hundreds / 100 * 100 + hundreds % 100;
    assert seconds / 10000 == hundreds / 100;
  }

  /** The same for every decimal second. */
  lemma DecimalRoundTrip(seconds: nat)
    requires seconds < 100000
    ensures ParseDecimal(PrintDecimal(seconds)) == Some(seconds * US_PER_DECIMAL_SECOND)
  {
    DecimalSplit(seconds);
    ParseDecimalClock(seconds / 10000, seconds / 100 % 100, seconds % 100);
  }

  lemma WholeSeconds(seconds: nat)
    ensures seconds * US_PER_SECOND / US_PER_SECOND == seconds
    ensures seconds * US_PER_SECOND % US_PER_SECOND == 0
  {
  }

  /** Every accepted text means what the canonical spelling of its result means. */
  lemma EveryResultIsCanonical(text: string, us: nat)
    requires Parse24(text) == Some(us) || Parse12(text) == Some(us)
    ensures us % US_PER_SECOND == 0
    ensures Parse24(Print24(us / US_PER_SECOND)) == Some(us)
    ensures Parse12(Print12(us / US_PER_SECOND)) == Some(us)
  {
    var seconds := WholeResult(text, us);
    WholeSeconds(seconds);
    RoundTrip24(seconds);
    RoundTrip12(seconds);
  }

  lemma WholeResult(text: string, us: nat) returns (seconds: nat)
    requires Parse24(text) == Some(us) || Parse12(text) == Some(us)
    ensures us == seconds * US_PER_SECOND && seconds < 86400
  {
    Accepts24(text, us);
    Accepts12(text, us);
    var r := Fields(text).value;
    var hour := if Parse24(text) == Some(us) then r.hour
                else Hour12(r.hour, Meridiem(WithoutBlanks(r.rest), 'P'));
    seconds := hour * 3600 + r.minute * 60 + r.second;
  }

  /** The hour, minute, second and fraction that the panel hands on recompose the instant. */
  lemma SplitRecomposes(us: nat)
    requires us < US_PER_DAY
    ensures
      var whole := us / US_PER_SECOND;
      var hour, minute, second := whole / 3600, whole % 3600 / 60, whole % 60;
      && hour <= 23 && minute <= 59 && second <= 59
      && us == Conventional(hour, minute, second) + us % US_PER_SECOND
  {
    var whole := us / US_PER_SECOND;
    assert whole < 86400;
    assert whole == whole / 3600 * 3600 + whole % 3600;
    var within := whole % 3600;
    assert within == within / 60 * 60 + within % 60;
    assert whole % 60 == within % 60;
    assert us == whole * US_PER_SECOND + us % US_PER_SECOND;
  }

  // ----- The parsers

  /** Advances over one field, or rejects it. */
  method ParseField(text: string) returns (field: Option<(nat, string)>)
    ensures field == Field(text)
  {
    var p, number := 0, 0;
    while p < |text| && IsDigit(text[p]) && p < 2
      invariant p <= 2 && p <= |text| && AllDigits(text[..p])
      invariant number == Value(text[..p])
    {
      ValueOfMore(text[..p], text[p]);
      assert text[..p + 1] == text[..p] + [text[p]];
      number := number * 10 + DigitValue(text[p]);
      p := p + 1;
    }
    LengthOfField(text, p);
    if p == 0 || (p < |text| && IsDigit(text[p])) {
      return None;
    }
    return Some((number, text[p..]));
  }

  lemma LengthOfField(text: string, p: nat)
    requires p <= |text| && p <= 2 && AllDigits(text[..p])
    requires p == 2 || p == |text| || !IsDigit(text[p])
    ensures FieldLength(text) == if p < |text| && IsDigit(text[p]) then 0 else p
  {
    assert p > 0 ==> text[0] == text[..p][0];
    assert p > 1 ==> text[1] == text[..p][1];
  }

  method ParseFields(text: string) returns (reading: Option<Reading>)
    ensures reading == Fields(text)
  {
    var hour := ParseField(text);
    if hour.None? || !Starts(hour.value.1, ':') {
      return None;
    }
    var minute := ParseField(hour.value.1[1..]);
    if minute.None? {
      return None;
    }
    var second, rest := 0, minute.value.1;
    if Starts(rest, ':') {
      var field := ParseField(rest[1..]);
      if field.None? {
        return None;
      }
      second, rest := field.value.0, field.value.1;
    }
    return Some(Reading(hour.value.0, minute.value.0, second, rest));
  }

  method ParseConventional24(text: string) returns (us: Option<nat>)
    ensures us == Parse24(text)
  {
    var reading := ParseFields(text);
    if reading.None? {
      return None;
    }
    var Reading(hour, minute, second, rest) := reading.value;
    if rest != "" || hour > 23 || minute > 59 || second > 59 {
      return None;
    }
    return Some((hour * 3600 + minute * 60 + second) * US_PER_SECOND);
  }

  method ParseConventional12(text: string) returns (us: Option<nat>)
    ensures us == Parse12(text)
  {
    var reading := ParseFields(text);
    if reading.None? {
      return None;
    }
    var Reading(hour, minute, second, rest) := reading.value;
    if hour < 1 || hour > 12 || minute > 59 || second > 59 {
      return None;
    }
    var suffix := rest;
    while suffix != [] && (suffix[0] == ' ' || suffix[0] == '\t')
      invariant WithoutBlanks(suffix) == WithoutBlanks(rest)
      decreases |suffix|
    {
      suffix := suffix[1..];
    }
    if !Meridiem(suffix, 'A') && !Meridiem(suffix, 'P') {
      return None;
    }
    hour := hour % 12;
    if Meridiem(suffix, 'P') {
      hour := hour + 12;
    }
    return Some((hour * 3600 + minute * 60 + second) * US_PER_SECOND);
  }

  method ParseTenHour(text: string) returns (us: Option<nat>)
    ensures us == ParseDecimal(text)
  {
    var reading := ParseFields(text);
    if reading.None? || reading.value.rest != "" || reading.value.hour > 9 {
      return None;
    }
    var Reading(hour, minute, second, _) := reading.value;
    var result := (hour * 10000 + minute * 100 + second) * US_PER_DECIMAL_SECOND;
    return if result < US_PER_DAY then Some(result) else None;
  }

  datatype Profile = Conventional12 | Conventional24 | Decimal10

  function ProfileFor(mode: string, desktop24: bool): Option<Profile> {
    if mode == "standard" then Some(if desktop24 then Conventional24 else Conventional12)
    else if mode == "standard-24" then Some(Conventional24)
    else if mode == "standard-12" then Some(Conventional12)
    else if mode == "decimal" then Some(Decimal10)
    else None
  }

  function Meaning(mode: string, desktop24: bool, text: string): Option<nat> {
    match ProfileFor(mode, desktop24)
    case None => None
    case Some(Conventional12) => Parse12(text)
    case Some(Conventional24) => Parse24(text)
    case Some(Decimal10) => ParseDecimal(text)
  }

  /** Where a parse leaves its result. */
  class Result {
    var microseconds: int

    constructor (microseconds: int)
      ensures this.microseconds == microseconds
    {
      this.microseconds := microseconds;
    }

    /** Parses by the selected clock; a failure leaves the result as it was. */
    method Parse(mode: string, desktop24: bool, text: string) returns (ok: bool)
      modifies this
      ensures ok <==> Meaning(mode, desktop24, text).Some?
      ensures microseconds == if ok then Meaning(mode, desktop24, text).value else old(microseconds)
      ensures ok ==> 0 <= microseconds < US_PER_DAY
      ensures mode == "standard-24" || (mode == "standard" && desktop24) ==>
        if ok then Parse24(text) == Some(microseconds) else Parse24(text).None?
      ensures mode == "standard-12" || (mode == "standard" && !desktop24) ==>
        if ok then Parse12(text) == Some(microseconds) else Parse12(text).None?
      ensures mode == "decimal" ==>
        if ok then ParseDecimal(text) == Some(microseconds) else ParseDecimal(text).None?
      ensures mode !in ["standard", "standard-24", "standard-12", "decimal"] ==> !ok
    {
      var profile := ProfileFor(mode, desktop24);
      if profile.None? {
        return false;
      }
      var parsed;
      match profile.value {
        case Conventional12 => parsed := ParseConventional12(text);
        case Conventional24 => parsed := ParseConventional24(text);
        case Decimal10 => parsed := ParseTenHour(text);
      }
      if parsed.None? {
        return false;
      }
      InRange(mode, desktop24, text);
      microseconds := parsed.value;
      return true;
    }
  }

  lemma InRange(mode: string, desktop24: bool, text: string)
    requires Meaning(mode, desktop24, text).Some?
    ensures Meaning(mode, desktop24, text).value < US_PER_DAY
  {
    var us := Meaning(mode, desktop24, text).value;
    Accepts12(text, us);
    Accepts24(text, us);
  }
}
