/**
 * Dart-board segments, as far as the 01 engine's tests pin them down.
 * The full lookup table from raw board identifiers is not part of this model;
 * only the six segments the tests throw are defined, with the point values
 * the tests assert.
 */
module BoardInfo {

  /** Where on the board a dart landed. */
  datatype Zone = Miss | InnerSingle | OuterSingle | Double | Triple

  /** A classified hit: its zone and the points it is worth. */
  datatype Segment = Segment(zone: Zone, value: nat)

  /** Triple 20. */
  const Triple20: Segment := Segment(Triple, 60)
  /** Inner single 20. */
  const Inner20: Segment := Segment(InnerSingle, 20)
  /** Double 20. */
  const Double20: Segment := Segment(Double, 40)
  /** Single bull. */
  const Bull: Segment := Segment(InnerSingle, 25)
  /** Double bull (bull's eye). */
  const DoubleBull: Segment := Segment(Double, 50)
  /** A dart that scored nothing. */
  const MissSegment: Segment := Segment(Miss, 0)
}
