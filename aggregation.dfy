/**
 * The views the data hook derives from the normalised events: the
 * magnitude-filtered collection and its summary statistics.
 */
module Aggregation {
  import opened Wrappers
  import opened Sequences
  import opened Feed

  /**
   * The filter's test, `minMag ? (d.mag ?? -Infinity) >= minMag : true`.
   * A threshold of 0 is falsy and lets everything through; any other
   * threshold is compared with the magnitude, and a missing magnitude
   * stands in as -Infinity, which reaches no finite threshold.
   */
  predicate Passes(e: Event, minMag: real) {
    if minMag == 0.0 then true
    else match e.mag
      case None => false
      case Some(m) => m >= minMag
  }

  function Threshold(minMag: real): Event -> bool {
    e => Passes(e, minMag)
  }

  /** The `filtered` view. */
  function FilterByMag(events: seq<Event>, minMag: real): (r: seq<Event>)
    ensures |r| <= |events|
  {
    Filter(events, Threshold(minMag))
  }

  /** A threshold of 0 keeps the collection as it is. */
  lemma FilterByMagZero(events: seq<Event>)
    ensures FilterByMag(events, 0.0) == events
  {
    FilterKeepsAll(events, Threshold(0.0));
  }

  /**
   * The filtered view is the order-preserving subsequence of the events at
   * the positions `KeptIndices` lists, and with a nonzero threshold a
   * position is kept exactly when its magnitude is present and at least
   * the threshold, so events of unknown magnitude are dropped.
   */
  lemma {:induction false} FilterByMagSelects(events: seq<Event>, minMag: real)
    requires minMag != 0.0
    ensures var r, ix := FilterByMag(events, minMag), KeptIndices(events, Threshold(minMag));
      && |r| == |ix|
      && StrictlyIncreasing(ix)
      && (forall k :: 0 <= k < |ix| ==> ix[k] < |events| && r[k] == events[ix[k]])
      && (forall i :: 0 <= i < |events| ==>
            (i in ix <==> events[i].mag.Some? && events[i].mag.value >= minMag))
  {
    FilterIsKeptSubsequence(events, Threshold(minMag));
  }

  /** With a nonzero threshold, every event shown has a known magnitude at or above it. */
  lemma FilterByMagDropsUnknown(events: seq<Event>, minMag: real)
    requires minMag != 0.0
    ensures forall e :: e in FilterByMag(events, minMag) ==> e.mag.Some? && e.mag.value >= minMag
    ensures forall e :: e in events && e.mag.Some? && e.mag.value >= minMag ==> e in FilterByMag(events, minMag)
  {
    var r := FilterByMag(events, minMag);
    FilterMembers(events, Threshold(minMag));
    forall e | e in r ensures e.mag.Some? && e.mag.value >= minMag {
      var k :| 0 <= k < |r| && r[k] == e;
    }
    forall e | e in events && e.mag.Some? && e.mag.value >= minMag ensures e in r {
      var i :| 0 <= i < |events| && events[i] == e;
    }
  }

  /**
   * Events of magnitude 2, unknown and 5 under threshold 3: only the
   * magnitude-5 event remains; the unknown one is dropped with the weak one.
   */
  lemma UnknownMagnitudeDroppedAtThreshold(weak: Event, unknown: Event, strong: Event)
    requires weak.mag == Some(2.0) && unknown.mag == None && strong.mag == Some(5.0)
    ensures FilterByMag([weak, unknown, strong], 3.0) == [strong]
  {
    var es, keep := [weak, unknown, strong], Threshold(3.0);
    assert !keep(weak) && !keep(unknown) && keep(strong);
    assert [weak][..0] == [];
    assert Filter([weak], keep) == [];
    assert es[..2][..1] == [weak];
    assert Filter(es[..2], keep) == [];
    assert Filter(es, keep) == [strong];
  }

  /** `d.mag ?? 0`; also the number `>` compares, since null coerces to 0. */
  function MagOrZero(e: Event): real {
    e.mag.GetOr(0.0)
  }

  /** `mags.reduce((a, b) => a + b, 0)`: a left fold over the collection. */
  function SumMags(events: seq<Event>): (sum: real)
    ensures (forall k :: 0 <= k < |events| ==> events[k].mag.None?) ==> sum == 0.0
    ensures (forall k :: 0 <= k < |events| ==> MagOrZero(events[k]) >= 0.0) ==> sum >= 0.0
  {
    if events == [] then 0.0
    else SumMags(events[..|events| - 1]) + MagOrZero(events[|events| - 1])
  }

  /** One step of `reduce((m, d) => (m && m.mag > d.mag ? m : d), null)`. */
  function Stronger(m: Option<Event>, d: Event): Option<Event> {
    if m.Some? && MagOrZero(m.value) > MagOrZero(d) then m else Some(d)
  }

  /** The `max` reduce: a left fold of `Stronger` starting from null. */
  function Strongest(events: seq<Event>): (max: Option<Event>)
    ensures max.None? <==> events == []
    ensures max.Some? ==> max.value in events
  {
    if events == [] then None
    else Stronger(Strongest(events[..|events| - 1]), events[|events| - 1])
  }

  datatype Summary = Summary(count: nat, avgMag: real, max: Option<Event>)

  /** The `stats` view. */
  function Stats(events: seq<Event>): (s: Summary)
    ensures s.count == |events|
    ensures events == [] ==> s == Summary(0, 0.0, None)
    ensures events != [] ==> s.avgMag * (|events| as real) == SumMags(events)
  {
    if |events| == 0 then Summary(0, 0.0, None)
    else Summary(|events|, SumMags(events) / |events| as real, Strongest(events))
  }

  lemma {:induction false} SumMagsAppend(a: seq<Event>, b: seq<Event>)
    ensures SumMags(a + b) == SumMags(a) + SumMags(b)
  {
    if b == [] {
      assert a + b == a;
    } else {
      var n := |b| - 1;
      SumMagsAppend(a, b[..n]);
      assert (a + b)[..|a + b| - 1] == a + b[..n];
      assert (a + b)[|a + b| - 1] == b[n];
    }
  }

  /** The sum of magnitudes does not depend on the order of the events. */
  lemma {:induction false} SumMagsPermutation(a: seq<Event>, b: seq<Event>)
    requires multiset(a) == multiset(b)
    ensures SumMags(a) == SumMags(b)
    decreases |a|
  {
    if a == [] {
      assert |b| == |multiset(b)| == 0;
    } else {
      var n := |a| - 1;
      var x := a[n];
      assert a == a[..n] + [x];
      assert x in multiset(b);
      var j :| 0 <= j < |b| && b[j] == x;
      var rest := b[..j] + b[j + 1..];
      assert b == b[..j] + [x] + b[j + 1..];
      assert multiset(a[..n]) == multiset(a) - multiset{x};
      assert multiset(rest) == multiset(b) - multiset{x};
      SumMagsPermutation(a[..n], rest);
      SumMagsAppend(b[..j] + [x], b[j + 1..]);
      SumMagsAppend(b[..j], [x]);
      SumMagsAppend(b[..j], b[j + 1..]);
      assert SumMags([x]) == MagOrZero(x) by {
        assert [x][..0] == [];
      }
    }
  }

  /** Count and average magnitude are the same for any reordering of the collection. */
  lemma StatsOrderIndependent(a: seq<Event>, b: seq<Event>)
    requires multiset(a) == multiset(b)
    ensures Stats(a).count == Stats(b).count
    ensures Stats(a).avgMag == Stats(b).avgMag
  {
    assert |a| == |multiset(a)| == |multiset(b)| == |b|;
    SumMagsPermutation(a, b);
  }

  /**
   * Position k holds a maximal compared magnitude, and no later position
   * reaches it: the last maximum.
   */
  ghost predicate IsLastMaximum(events: seq<Event>, k: int) {
    && 0 <= k < |events|
    && (forall j :: 0 <= j < |events| ==> MagOrZero(events[j]) <= MagOrZero(events[k]))
    && (forall j :: k < j < |events| ==> MagOrZero(events[j]) < MagOrZero(events[k]))
  }

  /**
   * On a non-empty collection the strongest event is the element at the
   * last position whose compared magnitude is maximal, so ties go to the
   * later event.
   */
  lemma {:induction false} StrongestIsLastMaximum(events: seq<Event>)
    requires events != []
    ensures exists k :: IsLastMaximum(events, k) && Strongest(events) == Some(events[k])
  {
    var n := |events| - 1;
    var d := events[n];
    var prefix := events[..n];
    if prefix == [] {
      assert IsLastMaximum(events, 0) && Strongest(events) == Some(events[0]);
    } else {
      StrongestIsLastMaximum(prefix);
      var k' :| IsLastMaximum(prefix, k') && Strongest(prefix) == Some(prefix[k']);
      assert prefix[k'] == events[k'];
      if MagOrZero(events[k']) > MagOrZero(d) {
        forall j | 0 <= j < |events| ensures MagOrZero(events[j]) <= MagOrZero(events[k']) {
          if j < n { assert prefix[j] == events[j]; }
        }
        forall j | k' < j < |events| ensures MagOrZero(events[j]) < MagOrZero(events[k']) {
          if j < n { assert prefix[j] == events[j]; }
        }
        assert IsLastMaximum(events, k') && Strongest(events) == Some(events[k']);
      } else {
        forall j | 0 <= j < |events| ensures MagOrZero(events[j]) <= MagOrZero(events[n]) {
          if j < n { assert prefix[j] == events[j]; }
        }
        assert IsLastMaximum(events, n) && Strongest(events) == Some(events[n]);
      }
    }
  }

  /**
   * When every magnitude is known, the strongest event is a member of the
   * collection whose magnitude is at least every other member's.
   */
  lemma {:induction false} StrongestIsMaximal(events: seq<Event>)
    requires events != []
    requires forall e :: e in events ==> e.mag.Some?
    ensures Strongest(events).Some? && Strongest(events).value in events
    ensures forall e :: e in events ==> e.mag.value <= Strongest(events).value.mag.value
  {
    StrongestIsLastMaximum(events);
    var k :| IsLastMaximum(events, k) && Strongest(events) == Some(events[k]);
    forall e | e in events ensures e.mag.value <= Strongest(events).value.mag.value {
      var j :| 0 <= j < |events| && events[j] == e;
    }
  }

  /** A non-empty collection's stats report the strongest event. */
  lemma StatsReportsStrongest(events: seq<Event>)
    requires events != []
    ensures Stats(events).max.Some? && Stats(events).max.value in events
    ensures Stats(events).max == Strongest(events)
  {
    StrongestIsLastMaximum(events);
  }
}
