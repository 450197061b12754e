/**
 * The USGS GeoJSON feed as the app receives it, the flat event records it
 * turns each feature into, and the normaliser that maps features to records
 * and drops the ones without usable coordinates or with an unparsable
 * magnitude.
 */
module Feed {
  import opened Wrappers
  import opened Sequences

  /**
   * A numeric field as JSON parsing leaves it. `NaN` stands for any value
   * that JavaScript's `isNaN` flags (NaN itself, or text that is not a
   * number); `Missing` for null and undefined alike.
   */
  datatype RawNum = Finite(value: real) | NaN | Infinite(positive: bool) | Missing

  /** A raw magnitude: every raw number except an infinity. */
  type RawMag = n: RawNum | !n.Infinite? witness Missing

  /** The descriptive properties the app copies through untouched. */
  datatype Meta = Meta(
    place: Option<string>,
    time: Option<int>,
    url: Option<string>,
    tsunami: Option<int>,
    felt: Option<int>,
    alert: Option<string>)

  const NoMeta := Meta(None, None, None, None, None, None)

  /** A feature's `properties` object. */
  datatype Props = Props(mag: RawMag, info: Meta)

  /**
   * One element of the feed's `features` array: its id, its
   * `geometry.coordinates` array (None when the geometry or the coordinates
   * are absent) and its `properties` (None when absent).
   */
  datatype RawFeature = RawFeature(
    id: Option<string>,
    coordinates: Option<seq<RawNum>>,
    properties: Option<Props>)

  /** The parsed feed document; `features` is None when it is not an array. */
  datatype FeedDoc = FeedDoc(features: Option<seq<RawFeature>>)

  /** The flat record built from a feature before validation. */
  datatype Record = Record(
    id: Option<string>,
    lat: RawNum,
    lon: RawNum,
    depth: RawNum,
    mag: RawMag,
    info: Meta)

  /** A record that passed validation: finite coordinates, a magnitude that is a number or absent. */
  datatype Event = Event(
    id: Option<string>,
    lat: real,
    lon: real,
    depth: RawNum,
    mag: Option<real>,
    info: Meta)

  /**
   * Element i of the coordinate array; absent coordinates default to
   * `[null, null, null]` and positions past the end of a short array read
   * as undefined.
   */
  function Coordinate(f: RawFeature, i: nat): RawNum {
    match f.coordinates
    case None => Missing
    case Some(cs) => if i < |cs| then cs[i] else Missing
  }

  /** The feature's `properties.mag`, or undefined when it has no properties. */
  function MagField(f: RawFeature): RawMag {
    match f.properties
    case None => Missing
    case Some(p) => p.mag
  }

  /** The mapping step: `[lon, lat, depth]` destructured from the coordinates, properties copied. */
  function Flatten(f: RawFeature): (d: Record)
    ensures f.coordinates.None? ==> d.lat == d.lon == d.depth == Missing
    ensures f.properties.None? ==> d.mag == Missing && d.info == NoMeta
    ensures d.id == f.id
  {
    var p := f.properties.GetOr(Props(Missing, NoMeta));
    Record(f.id, Coordinate(f, 1), Coordinate(f, 0), Coordinate(f, 2), p.mag, p.info)
  }

  /** The filtering step: `Number.isFinite(lat) && Number.isFinite(lon) && (mag == null || !isNaN(mag))`. */
  predicate IsKept(d: Record) {
    d.lat.Finite? && d.lon.Finite? && (d.mag.Missing? || !d.mag.NaN?)
  }

  /** The number behind a raw value that validation has shown to be finite. */
  function Number(n: RawNum): real {
    if n.Finite? then n.value else 0.0
  }

  /** A validated record as an event. */
  function ToEvent(d: Record): Event {
    Event(d.id, Number(d.lat), Number(d.lon), d.depth,
          if d.mag.Finite? then Some(d.mag.value) else None, d.info)
  }

  /** The normaliser: map every feature to a record, keep the valid ones. */
  function Normalize(doc: FeedDoc): (events: seq<Event>)
    ensures doc.features.None? ==> events == []
    ensures doc.features.Some? ==> |events| <= |doc.features.value|
  {
    match doc.features
    case None => []
    case Some(fs) => MapSeq(Filter(MapSeq(fs, Flatten), IsKept), ToEvent)
  }

  /**
   * The normaliser's output is the order-preserving subsequence of the
   * features at the positions `KeptIndices` lists; a feature is kept exactly
   * when its longitude and latitude are finite and its magnitude is a number
   * or absent; and every kept event carries `lon = coordinates[0]`,
   * `lat = coordinates[1]`, `depth = coordinates[2]` and the feature's
   * magnitude, id and properties.
   */
  lemma NormalizeSelectsValidFeatures(fs: seq<RawFeature>)
    ensures var events, ix := Normalize(FeedDoc(Some(fs))), KeptIndices(MapSeq(fs, Flatten), IsKept);
      && |events| == |ix| <= |fs|
      && StrictlyIncreasing(ix)
      && (forall i :: 0 <= i < |fs| ==>
            (i in ix <==> Coordinate(fs[i], 0).Finite? && Coordinate(fs[i], 1).Finite? && !MagField(fs[i]).NaN?))
      && (forall k :: 0 <= k < |ix| ==> ix[k] < |fs| && Describes(events[k], fs[ix[k]]))
  {
    var recs := MapSeq(fs, Flatten);
    var kept := Filter(recs, IsKept);
    var events, ix := Normalize(FeedDoc(Some(fs))), KeptIndices(recs, IsKept);
    FilterIsKeptSubsequence(recs, IsKept);
    forall k | 0 <= k < |ix| ensures ix[k] < |fs| && Describes(events[k], fs[ix[k]]) {
      assert kept[k] == recs[ix[k]] == Flatten(fs[ix[k]]);
      assert ix[k] in ix;
    }
  }

  /** A feed of three features, one with a NaN longitude, normalises to two events. */
  lemma NaNLongitudeDropped(a: RawFeature, b: RawFeature, c: RawFeature)
    requires a.coordinates == Some([NaN, Finite(10.0), Finite(5.0)])
    requires b.coordinates == Some([Finite(20.0), Finite(10.0), Finite(5.0)]) && b.properties == None
    requires c.coordinates == Some([Finite(30.0), Finite(-5.0), Finite(5.0)]) && c.properties == None
    ensures |Normalize(FeedDoc(Some([a, b, c])))| == 2
  {
    var recs := MapSeq([a, b, c], Flatten);
    assert recs == [Flatten(a), Flatten(b), Flatten(c)];
    assert !IsKept(Flatten(a)) && IsKept(Flatten(b)) && IsKept(Flatten(c));
    assert [Flatten(a)][..0] == [];
    assert Filter([Flatten(a)], IsKept) == [];
    assert recs[..2][..1] == [Flatten(a)];
    assert Filter(recs[..2], IsKept) == [Flatten(b)];
    assert Filter(recs, IsKept) == [Flatten(b), Flatten(c)];
  }

  /** Event `e` is the record built from feature `f`, with each field taken from where the source takes it. */
  ghost predicate Describes(e: Event, f: RawFeature) {
    && Coordinate(f, 0) == Finite(e.lon)
    && Coordinate(f, 1) == Finite(e.lat)
    && e.depth == Coordinate(f, 2)
    && (match e.mag
        case None => MagField(f) == Missing
        case Some(m) => MagField(f) == Finite(m))
    && e.id == f.id
    && e.info == (if f.properties.Some? then f.properties.value.info else NoMeta)
  }
}
