/**
 * The marker visuals: a colour band and a clamped size per magnitude, and
 * the module-wide cache that hands out one icon per half-magnitude bucket.
 */
module Icons {
  import opened Wrappers

  datatype Color = Gray | Green | Yellow | Orange | Red

  /** The CSS colour each band is drawn in. */
  function Hex(c: Color): string {
    match c
    case Gray => "#9CA3AF"
    case Green => "#22c55e"
    case Yellow => "#eab308"
    case Orange => "#f97316"
    case Red => "#ef4444"
  }

  /** The order of the bands from minor to strong; the unknown band is below them all. */
  function Severity(c: Color): nat {
    match c
    case Gray => 0
    case Green => 1
    case Yellow => 2
    case Orange => 3
    case Red => 4
  }

  /** `getColor`: grey when the magnitude is unknown, otherwise bands cut at 2.5, 4.5 and 6. */
  function GetColor(mag: Option<real>): (c: Color)
    ensures c == Gray <==> mag.None?
  {
    match mag
    case None => Gray
    case Some(m) =>
      if m < 2.5 then Green
      else if m < 4.5 then Yellow
      else if m < 6.0 then Orange
      else Red
  }

  /** `magToSize`: 18 px when unknown, otherwise `12 + 4 * mag` clamped to [14, 42]. */
  function MagToSize(mag: Option<real>): (size: real)
    ensures mag.None? ==> size == 18.0
    ensures mag.Some? ==> 14.0 <= size <= 42.0
    ensures mag.Some? && 0.5 <= mag.value <= 7.5 ==> size == 12.0 + 4.0 * mag.value
  {
    match mag
    case None => 18.0
    case Some(m) =>
      var grown := 12.0 + m * 4.0;
      var capped := if grown < 42.0 then grown else 42.0;
      if capped > 14.0 then capped else 14.0
  }

  /** The descriptor `makeIcon` builds: size, colour and the magnitude shown as its caption. */
  datatype Icon = Icon(size: real, color: Color, caption: Option<real>)

  function Describe(mag: Option<real>): (icon: Icon)
    ensures icon.caption == mag
    ensures icon.color == Gray <==> mag.None?
    ensures mag.None? ==> icon.size == 18.0
    ensures mag.Some? ==> 14.0 <= icon.size <= 42.0
  {
    Icon(MagToSize(mag), GetColor(mag), mag)
  }

  /** JavaScript's `Math.round`: the nearest integer, halves rounded up. */
  function Round(x: real): (n: int)
    ensures n as real - 0.5 <= x < n as real + 0.5
  {
    (x + 0.5).Floor
  }

  /** The cache key `Math.round((mag ?? 0) * 2)`. */
  function BucketKey(mag: Option<real>): (key: int)
    ensures (2 * key - 1) as real <= 4.0 * mag.GetOr(0.0) < (2 * key + 1) as real
  {
    Round(mag.GetOr(0.0) * 2.0)
  }

  /** An unknown magnitude gives the grey icon of size 18. */
  lemma UnknownMagnitudeVisual()
    ensures Describe(None) == Icon(18.0, Gray, None)
    ensures Hex(GetColor(None)) == "#9CA3AF"
  {
  }

  /** Each known magnitude falls in exactly one band, by the thresholds 2.5, 4.5 and 6. */
  lemma ColorBands(m: real)
    ensures GetColor(Some(m)) != Gray
    ensures GetColor(Some(m)) == Green <==> m < 2.5
    ensures GetColor(Some(m)) == Yellow <==> 2.5 <= m < 4.5
    ensures GetColor(Some(m)) == Orange <==> 4.5 <= m < 6.0
    ensures GetColor(Some(m)) == Red <==> 6.0 <= m
  {
  }

  /** A stronger quake never gets a milder band or a smaller marker. */
  lemma VisualMonotone(m1: real, m2: real)
    requires m1 <= m2
    ensures Severity(GetColor(Some(m1))) <= Severity(GetColor(Some(m2)))
    ensures MagToSize(Some(m1)) <= MagToSize(Some(m2))
  {
  }

  /**
   * Bucket k holds exactly the magnitudes within a quarter of k / 2:
   * `Math.round(2 * m) == k` iff `2k - 1 <= 4m < 2k + 1`.
   */
  lemma BucketMembership(m: real, k: int)
    ensures BucketKey(Some(m)) == k <==> (2 * k - 1) as real <= 4.0 * m < (2 * k + 1) as real
  {
    var key := BucketKey(Some(m));
    if (2 * k - 1) as real <= 4.0 * m < (2 * k + 1) as real {
      assert (key - k) as real < 1.0 && (k - key) as real < 1.0;
    }
  }

  /**
   * Magnitudes that share a bucket can need different visuals: an unknown
   * magnitude and 0.1 share key 0, and 2.4 (green) and 2.6 (yellow) share
   * key 5.
   */
  lemma BucketCollisions()
    ensures BucketKey(None) == BucketKey(Some(0.1)) == 0
    ensures Describe(None) != Describe(Some(0.1))
    ensures BucketKey(Some(2.4)) == BucketKey(Some(2.6)) == 5
    ensures GetColor(Some(2.4)) == Green && GetColor(Some(2.6)) == Yellow
  {
    BucketMembership(0.0, 0);
    BucketMembership(0.1, 0);
    BucketMembership(2.4, 5);
    BucketMembership(2.6, 5);
  }

  /** The module-level `iconCache`: bucket key to the icon first built for it. */
  class IconCache {
    var entries: map<int, Icon>

    /** Every cached icon is the descriptor of some magnitude in its bucket. */
    ghost predicate Valid()
      reads this
    {
      forall k :: k in entries ==> exists mag :: BucketKey(mag) == k && entries[k] == Describe(mag)
    }

    constructor ()
      ensures Valid() && entries == map[]
    {
      entries := map[];
    }

    /**
     * `makeIcon`: on a hit, the stored icon and an unchanged cache; on a
     * miss, the icon for this magnitude, stored under its key and nowhere
     * else. Either way the result is the icon of some magnitude in the
     * requested bucket, and no entry is lost or altered.
     */
    method MakeIcon(mag: Option<real>) returns (icon: Icon)
      requires Valid()
      modifies this
      ensures Valid()
      ensures var key := BucketKey(mag);
        if key in old(entries) then icon == old(entries)[key] && entries == old(entries)
        else icon == Describe(mag) && entries == old(entries)[key := icon]
      ensures forall k :: k in old(entries) ==> k in entries && entries[k] == old(entries)[k]
      ensures exists m :: BucketKey(m) == BucketKey(mag) && icon == Describe(m)
    {
      var key := BucketKey(mag);
      if key in entries {
        icon := entries[key];
        return;
      }
      icon := Describe(mag);
      entries := entries[key := icon];
    }
  }

  /** Resolving a magnitude twice hands back the same icon. */
  method ResolveTwice(cache: IconCache, mag: Option<real>) returns (first: Icon, second: Icon)
    requires cache.Valid()
    modifies cache
    ensures cache.Valid()
    ensures first == second
  {
    first := cache.MakeIcon(mag);
    second := cache.MakeIcon(mag);
  }

  /**
   * On a fresh cache, the first magnitude requested in a bucket fixes the
   * icon every later magnitude in that bucket receives.
   */
  method FirstMagnitudeFixesBucket(first: Option<real>, later: Option<real>) returns (a: Icon, b: Icon)
    requires BucketKey(first) == BucketKey(later)
    ensures a == Describe(first) && b == Describe(first)
  {
    var cache := new IconCache();
    a := cache.MakeIcon(first);
    b := cache.MakeIcon(later);
  }
}
