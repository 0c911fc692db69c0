/** The GPS position of a site photograph: the hemisphere references and the
    degree/minute/second triples of the EXIF GPS block, turned into a record
    holding, per axis, the reference, a readable DMS text and a signed decimal
    degree value. Reading the image and its EXIF table is not part of this
    model: the GPS block is given. */
module ImageLocation {

  /** One EXIF rational as the code uses it twice: its numeric value (what
      `float(x)` yields) and its text (what the f-string writes for it). */
  datatype Component = Component(value: real, text: string)

  /** A degrees/minutes/seconds triple. */
  datatype Dms = Dms(degrees: Component, minutes: Component, seconds: Component)

  /** The entries of the EXIF GPS block that are read: 1 (north/south
      reference), 2 (latitude), 3 (east/west reference), 4 (longitude). */
  datatype GpsInfo = GpsInfo(latRef: string, lat: Dms, lonRef: string, lon: Dms)

  /** One axis of the result record. */
  datatype Coordinate = Coordinate(direction: string, dms: string, decimal: real)

  /** The result record: latitude and longitude. */
  datatype Location = Location(latitude: Coordinate, longitude: Coordinate)

  /** The reference that makes a latitude negative. */
  const South: string := "S"

  /** The reference that makes a longitude negative. */
  const West: string := "W"

  /** Degrees plus minutes over 60 plus seconds over 3600. */
  function Magnitude(d: Dms): (r: real)
    ensures d.minutes.value >= 0.0 && d.seconds.value >= 0.0 ==> r >= d.degrees.value
  {
    d.degrees.value + d.minutes.value / 60.0 + d.seconds.value / 3600.0
  }

  /** The readable text `"<d> Degs, <m> Mins, <s> Secs"`. */
  function DmsText(d: Dms): (r: string)
    ensures |r| == |d.degrees.text| + |d.minutes.text| + |d.seconds.text| + 19
    ensures d.degrees.text <= r
    ensures r[|r| - 5..] == " Secs"
    ensures r[|d.degrees.text|..|d.degrees.text| + 7] == " Degs, "
    ensures var a := |d.degrees.text| + 7;
            var b := a + |d.minutes.text| + 7;
            r[a..a + |d.minutes.text|] == d.minutes.text
            && r[a + |d.minutes.text|..b] == " Mins, "
            && r[b..b + |d.seconds.text|] == d.seconds.text
  {
    d.degrees.text + " Degs, " + d.minutes.text + " Mins, " + d.seconds.text + " Secs"
  }

  /** The signed decimal value of one axis: the magnitude, negated exactly when
      the reference equals the negating one. */
  function Decimal(reference: string, negating: string, d: Dms): (r: real)
    ensures r == Magnitude(d) || r == -Magnitude(d)
    ensures Magnitude(d) != 0.0 ==> (r == -Magnitude(d) <==> reference == negating)
  {
    if reference == negating then -Magnitude(d) else Magnitude(d)
  }

  /** One axis of the record. */
  function Axis(reference: string, negating: string, d: Dms): (r: Coordinate)
    ensures r.direction == reference
    ensures r.dms == DmsText(d)
    ensures r.decimal == Decimal(reference, negating, d)
  {
    Coordinate(reference, DmsText(d), Decimal(reference, negating, d))
  }

  /** The whole conversion: latitude negated for `S`, longitude for `W`. */
  function Locate(info: GpsInfo): (r: Location)
    ensures r.latitude.direction == info.latRef && r.longitude.direction == info.lonRef
    ensures r.latitude.dms == DmsText(info.lat) && r.longitude.dms == DmsText(info.lon)
    ensures r.latitude.decimal == Decimal(info.latRef, South, info.lat)
    ensures r.longitude.decimal == Decimal(info.lonRef, West, info.lon)
  {
    Location(Axis(info.latRef, South, info.lat), Axis(info.lonRef, West, info.lon))
  }

  /** Non-negative components. */
  predicate NonNegative(d: Dms)
  {
    d.degrees.value >= 0.0 && d.minutes.value >= 0.0 && d.seconds.value >= 0.0
  }

  /** With non-negative components the decimal value has the magnitude as its
      absolute value, and its sign is set by the reference alone. */
  lemma DecimalAbsolute(reference: string, negating: string, d: Dms)
    requires NonNegative(d)
    ensures Magnitude(d) >= 0.0
    ensures reference == negating ==> Decimal(reference, negating, d) <= 0.0
    ensures reference != negating ==> Decimal(reference, negating, d) >= 0.0
    ensures (if Decimal(reference, negating, d) < 0.0 then -Decimal(reference, negating, d)
             else Decimal(reference, negating, d)) == Magnitude(d)
  {
    assert d.minutes.value / 60.0 >= 0.0;
    assert d.seconds.value / 3600.0 >= 0.0;
  }

  /** Away from the origin the value is negative exactly when the reference is
      the negating one: south latitudes and west longitudes are negative, and
      every other reference, including lower case or an empty text, counts as
      north or east. */
  lemma NegativeIffNegatingReference(reference: string, negating: string, d: Dms)
    requires NonNegative(d) && Magnitude(d) > 0.0
    ensures Decimal(reference, negating, d) < 0.0 <==> reference == negating
  {
  }

  /** The magnitude counted in seconds of arc is the sum of the components in
      seconds. */
  lemma MagnitudeInSeconds(d: Dms)
    ensures Magnitude(d) * 3600.0 == d.degrees.value * 3600.0 + d.minutes.value * 60.0 + d.seconds.value
  {
    var m, s := d.minutes.value, d.seconds.value;
    assert (m / 60.0) * 3600.0 == m * 60.0;
    assert (s / 3600.0) * 3600.0 == s;
  }

  /** When minutes and seconds together are less than one degree, the whole
      degrees are the integral part of the magnitude. */
  lemma DegreesAreIntegralPart(d: Dms)
    requires d.minutes.value >= 0.0 && d.seconds.value >= 0.0
    requires d.minutes.value * 60.0 + d.seconds.value < 3600.0
    ensures d.degrees.value <= Magnitude(d) < d.degrees.value + 1.0
  {
    MagnitudeInSeconds(d);
  }

  /** Flipping a reference to or from the negating one flips the sign. */
  lemma OppositeReferences(reference: string, negating: string, d: Dms)
    requires reference != negating
    ensures Decimal(negating, negating, d) == -Decimal(reference, negating, d)
  {
  }

  /** In the record, a latitude away from the equator is negative exactly for
      the reference `S`, and a longitude away from the prime meridian exactly
      for `W`. */
  lemma LocateSigns(info: GpsInfo)
    requires NonNegative(info.lat) && Magnitude(info.lat) > 0.0
    requires NonNegative(info.lon) && Magnitude(info.lon) > 0.0
    ensures Locate(info).latitude.decimal < 0.0 <==> info.latRef == "S"
    ensures Locate(info).longitude.decimal < 0.0 <==> info.lonRef == "W"
  {
    NegativeIffNegatingReference(info.latRef, South, info.lat);
    NegativeIffNegatingReference(info.lonRef, West, info.lon);
  }

  /** A concrete record, 51 degrees 30 minutes north and 0 degrees 7 minutes
      30 seconds west, has the decimal values 51.5 and -0.125. */
  lemma ExampleDecimals()
    ensures var zero := Component(0.0, "0");
            var info := GpsInfo("N", Dms(Component(51.0, "51"), Component(30.0, "30"), zero),
                                "W", Dms(zero, Component(7.0, "7"), Component(30.0, "30")));
            Locate(info).latitude.decimal == 51.5 && Locate(info).longitude.decimal == -0.125
  {
  }

  /** The readable text of 51 degrees 30 minutes 0 seconds. */
  lemma ExampleText()
    ensures DmsText(Dms(Component(51.0, "51"), Component(30.0, "30"), Component(0.0, "0")))
            == "51 Degs, 30 Mins, 0 Secs"
  {
  }
}
