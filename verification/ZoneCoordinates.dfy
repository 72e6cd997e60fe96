/** Coordinates of the zone table, in the compact sign-degrees-minutes[-seconds] form of
    ISO 6709:2008 Annex H: two degree digits for latitude, three for longitude. */
module ZoneCoordinates {
  import opened Optional
  import opened Decimals

  /** A sign, a number of arc-seconds, and whether seconds are written out. */
  datatype Component = Component(negative: bool, arc: nat, long: bool) {
    function Angle(): real {
      var degrees := arc as real / 3600.0;
      if negative then -degrees else degrees
    }

    /** Within range, and expressible in its form. */
    predicate Allowed(maximum: nat) {
      arc <= maximum * 3600 && (long || arc % 60 == 0)
    }
  }

  predicate Sign(c: char) {
    c == '+' || c == '-'
  }

  function Written(c: Component, width: nat): string {
    (if c.negative then "-" else "+") + Digits(c.arc / 3600, width) + Digits(c.arc / 60 % 60, 2)
    + (if c.long then Digits(c.arc % 60, 2) else "")
  }

  /** Sign, digits and one of the two lengths. */
  predicate Shaped(text: string, width: nat) {
    && (|text| == 1 + width + 2 || |text| == 1 + width + 4)
    && Sign(text[0]) && AllDigits(text[1..])
  }

  function Degrees(text: string, width: nat): nat
    requires Shaped(text, width)
  {
    Value(text[1..1 + width])
  }

  function Minutes(text: string, width: nat): nat
    requires Shaped(text, width)
  {
    Value(text[1 + width..3 + width])
  }

  function Seconds(text: string, width: nat): nat
    requires Shaped(text, width)
  {
    if |text| == 1 + width + 4 then Value(text[3 + width..]) else 0
  }

  function Parsed(text: string, width: nat, maximum: nat): Option<Component> {
    if !Shaped(text, width) then None
    else
      var degrees, minutes, seconds := Degrees(text, width), Minutes(text, width), Seconds(text, width);
      if minutes >= 60 || seconds >= 60 || degrees > maximum
         || (degrees == maximum && (minutes != 0 || seconds != 0)) then None
      else
        Some(Component(text[0] == '-', degrees * 3600 + minutes * 60 + seconds,
                       |text| == 1 + width + 4))
  }

  // ----- Exactly the written forms

  lemma WrittenParts(c: Component, width: nat)
    ensures
      var text := Written(c, width);
      && Shaped(text, width) && text[1..1 + width] == Digits(c.arc / 3600, width)
      && (text[0] == '-') == c.negative && (|text| == 1 + width + 4) == c.long
      && text[1 + width..3 + width] == Digits(c.arc / 60 % 60, 2)
      && (c.long ==> text[3 + width..] == Digits(c.arc % 60, 2))
  {
  }

  lemma ArcParts(degrees: nat, minutes: nat, seconds: nat)
    requires minutes < 60 && seconds < 60
    ensures
      var arc := degrees * 3600 + minutes * 60 + seconds;
      arc / 3600 == degrees && arc / 60 % 60 == minutes && arc % 60 == seconds
  {
    var arc := degrees * 3600 + minutes * 60 + seconds;
    assert arc / 60 == degrees * 60 + minutes;
  }

  lemma ArcSplits(arc: nat)
    ensures arc == arc / 3600 * 3600 + arc / 60 % 60 * 60 + arc % 60
  {
    var minutes := arc / 60;
    assert arc == minutes * 60 + arc % 60 && minutes == minutes / 60 * 60 + minutes % 60;
    assert arc / 3600 == minutes / 60;
  }

  /** The limits on the parts are the limit on the whole. */
  lemma RangeOfParts(degrees: nat, minutes: nat, seconds: nat, maximum: nat)
    requires minutes < 60 && seconds < 60
    ensures
      degrees * 3600 + minutes * 60 + seconds <= maximum * 3600 <==>
        degrees < maximum || (degrees == maximum && minutes == 0 && seconds == 0)
  {
  }

  lemma WrittenNumbers(c: Component, width: nat)
    requires c.arc / 3600 < Pow10(width) && (c.long || c.arc % 60 == 0)
    ensures
      var text := Written(c, width);
      && Shaped(text, width) && Degrees(text, width) == c.arc / 3600
      && Minutes(text, width) == c.arc / 60 % 60 && Seconds(text, width) == c.arc % 60
  {
    WrittenParts(c, width);
    ValueOfDigits(c.arc / 3600, width);
    TwoDigits(c.arc / 60 % 60);
    TwoDigits(c.arc % 60);
  }

  lemma WrittenIsParsed(c: Component, width: nat, maximum: nat)
    requires maximum < Pow10(width) && c.Allowed(maximum)
    ensures Parsed(Written(c, width), width, maximum) == Some(c)
  {
    ArcSplits(c.arc);
    RangeOfParts(c.arc / 3600, c.arc / 60 % 60, c.arc % 60, maximum);
    WrittenNumbers(c, width);
    WrittenParts(c, width);
  }

  lemma ParsedIsWritten(text: string, width: nat, maximum: nat)
    requires Parsed(text, width, maximum).Some?
    ensures
      var c := Parsed(text, width, maximum).value;
      c.Allowed(maximum) && text == Written(c, width)
  {
    var degrees, minutes, seconds := Degrees(text, width), Minutes(text, width), Seconds(text, width);
    ArcParts(degrees, minutes, seconds);
    RangeOfParts(degrees, minutes, seconds, maximum);
    DegreesAreDigits(text, width);
    MinutesAreDigits(text, width);
    if |text| == 1 + width + 4 {
      SecondsAreDigits(text, width);
    }
    Slices(text, 1 + width, 3 + width);
  }

  lemma Slices(text: string, i: nat, j: nat)
    requires 1 <= i <= j <= |text|
    ensures text == [text[0]] + text[1..i] + text[i..j] + text[j..]
  {
    assert text[..j] == text[..i] + text[i..j];
    assert text[..i] == [text[0]] + text[1..i];
    assert text == text[..j] + text[j..];
  }

  lemma SliceIsDigits(text: string, i: nat, j: nat, width: nat)
    requires 1 <= i <= j <= |text| && AllDigits(text[1..]) && j - i == width
    ensures AllDigits(text[i..j]) && text[i..j] == Digits(Value(text[i..j]), width)
  {
    assert text[i..j] == text[1..][i - 1..j - 1];
    DigitsOfValue(text[i..j]);
  }

  lemma DegreesAreDigits(text: string, width: nat)
    requires Shaped(text, width)
    ensures text[1..1 + width] == Digits(Degrees(text, width), width)
  {
    SliceIsDigits(text, 1, 1 + width, width);
  }

  lemma MinutesAreDigits(text: string, width: nat)
    requires Shaped(text, width)
    ensures text[1 + width..3 + width] == Digits(Minutes(text, width), 2)
  {
    SliceIsDigits(text, 1 + width, 3 + width, 2);
  }

  lemma SecondsAreDigits(text: string, width: nat)
    requires Shaped(text, width) && |text| == 1 + width + 4
    ensures text[3 + width..] == Digits(Seconds(text, width), 2)
  {
    SliceIsDigits(text, 3 + width, |text|, 2);
    assert text[3 + width..|text|] == text[3 + width..];
  }

  /** A text parses to a component exactly when it is that component's written form. */
  lemma ComponentIsExact(text: string, width: nat, maximum: nat, c: Component)
    requires maximum < Pow10(width)
    ensures Parsed(text, width, maximum) == Some(c) <==> c.Allowed(maximum) && text == Written(c, width)
  {
    if Parsed(text, width, maximum) == Some(c) {
      ParsedIsWritten(text, width, maximum);
    }
    if c.Allowed(maximum) && text == Written(c, width) {
      WrittenIsParsed(c, width, maximum);
    }
  }

  /** The angle of a text: whole degrees, minutes and seconds of arc, negative after a minus. */
  lemma AngleIsRead(text: string, width: nat, maximum: nat)
    requires Parsed(text, width, maximum).Some?
    ensures Shaped(text, width)
    ensures
      var size := Value(text[1..1 + width]) as real + Value(text[1 + width..3 + width]) as real / 60.0
        + (if |text| == 1 + width + 4 then Value(text[3 + width..]) as real / 3600.0 else 0.0);
      Parsed(text, width, maximum).value.Angle() == if text[0] == '-' then -size else size
  {
  }

  // ----- Latitude and longitude together

  /** The first sign after the leading character, or the length. */
  function SecondSign(text: string, from: nat): (split: nat)
    requires from <= |text|
    ensures from <= split <= |text|
    ensures forall i | from <= i < split :: !Sign(text[i])
    ensures split < |text| ==> Sign(text[split])
    decreases |text| - from
  {
    if from == |text| || Sign(text[from]) then from else SecondSign(text, from + 1)
  }

  function Coordinate(text: string): Option<(Component, Component)> {
    if |text| < 1 then None
    else
      var split := SecondSign(text, 1);
      if split >= |text| then None
      else
        var latitude, longitude := Parsed(text[..split], 2, 90), Parsed(text[split..], 3, 180);
        if latitude.Some? && longitude.Some? then Some((latitude.value, longitude.value)) else None
  }

  /** Coordinates are accepted exactly in their written form within range, and read back. */
  lemma CoordinateIsExact(text: string, latitude: Component, longitude: Component)
    ensures
      Coordinate(text) == Some((latitude, longitude)) <==>
        && latitude.Allowed(90) && longitude.Allowed(180)
        && text == Written(latitude, 2) + Written(longitude, 3)
  {
    assert Pow10(2) == 100 && Pow10(3) == 1000;
    if Coordinate(text) == Some((latitude, longitude)) {
      var split := SecondSign(text, 1);
      ComponentIsExact(text[..split], 2, 90, latitude);
      ComponentIsExact(text[split..], 3, 180, longitude);
      assert text == text[..split] + text[split..];
    }
    if latitude.Allowed(90) && longitude.Allowed(180)
       && text == Written(latitude, 2) + Written(longitude, 3)
    {
      SplitsAtLongitude(latitude, longitude);
      ComponentIsExact(Written(latitude, 2), 2, 90, latitude);
      ComponentIsExact(Written(longitude, 3), 3, 180, longitude);
    }
  }

  lemma SplitsAtLongitude(latitude: Component, longitude: Component)
    ensures
      var text := Written(latitude, 2) + Written(longitude, 3);
      var split := SecondSign(text, 1);
      text[..split] == Written(latitude, 2) && text[split..] == Written(longitude, 3)
  {
    var first, second := Written(latitude, 2), Written(longitude, 3);
    var text := first + second;
    WrittenParts(latitude, 2);
    WrittenParts(longitude, 3);
    var split := SecondSign(text, 1);
    assert Sign(text[|first|]) by { assert text[|first|] == second[0]; }
    forall i | 1 <= i < |first|
      ensures !Sign(text[i])
    {
      assert text[i] == first[1..][i - 1];
    }
  }

  // ----- The parsers

  method ParseComponent(text: string, width: nat, maximum: nat) returns (value: Option<real>)
    ensures
      var c := Parsed(text, width, maximum);
      value == if c.Some? then Some(c.value.Angle()) else None
  {
    if |text| != 1 + width + 2 && |text| != 1 + width + 4 {
      return None;
    }
    if !Sign(text[0]) {
      return None;
    }
    for index := 1 to |text|
      invariant forall i | 1 <= i < index :: IsDigit(text[i])
    {
      if !IsDigit(text[index]) {
        assert !IsDigit(text[1..][index - 1]);
        return None;
      }
    }
    var degrees := ReadDigits(text[1..1 + width]);
    var minutes := ReadDigits(text[1 + width..3 + width]);
    var seconds := 0;
    if |text| == 1 + width + 4 {
      seconds := ReadDigits(text[3 + width..]);
    }
    if minutes >= 60 || seconds >= 60 || degrees > maximum
       || (degrees == maximum && (minutes != 0 || seconds != 0))
    {
      return None;
    }
    var magnitude := degrees as real + minutes as real / 60.0 + seconds as real / 3600.0;
    return Some(if text[0] == '-' then -magnitude else magnitude);
  }

  method ParseZoneCoordinate(text: string) returns (value: Option<(real, real)>)
    ensures
      var pair := Coordinate(text);
      value == if pair.Some? then Some((pair.value.0.Angle(), pair.value.1.Angle())) else None
  {
    var split := 1;
    while split < |text| && !Sign(text[split])
      invariant 1 <= split && (split <= |text| || split == 1)
      invariant |text| >= 1 ==> SecondSign(text, 1) == SecondSign(text, split)
    {
      split := split + 1;
    }
    if split >= |text| {
      return None;
    }
    var latitude := ParseComponent(text[..split], 2, 90);
    if latitude.None? {
      return None;
    }
    var longitude := ParseComponent(text[split..], 3, 180);
    return if longitude.None? then None else Some((latitude.value, longitude.value));
  }
}
