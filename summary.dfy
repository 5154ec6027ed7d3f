/**
 * What `computeSensorDataSummary` computes from the matched sensor rows: a count per
 * `sensorType`, the decoded values of all rows in order (rows whose payload does not
 * decode are skipped), and mean, variance, mean square, minimum and maximum of those
 * values, each 0 when there are none. The arithmetic is over the reals.
 */
module SensorSummary {
  import opened Wrappers
  import opened Entities

  // ---------------------------------------------------------------------------
  // Per-type counts

  /** The `sensorType` column of each row, in order. */
  function Types(events: seq<SensorEvent>): seq<string> {
    seq(|events|, i requires 0 <= i < |events| => events[i].sensorType)
  }

  /** `m[k] ?: 0`. */
  function CountOf(m: map<string, nat>, k: string): nat {
    MapGetOr(m, k, 0)
  }

  /** One more row of type `k`: `m[k] = (m[k] ?: 0) + 1`. */
  function Bump(m: map<string, nat>, k: string): map<string, nat> {
    m[k := CountOf(m, k) + 1]
  }

  /** The sum of all counts of a map. */
  ghost function SumCounts(m: map<string, nat>): nat
    decreases |m|
  {
    if |m| == 0 then 0
    else
      var k := PickKey(m);
      m[k] + SumCounts(m - {k})
  }

  ghost function PickKey(m: map<string, nat>): (k: string)
    requires |m| > 0
    ensures k in m && |m - {k}| == |m| - 1
  {
    var k :| k in m;
    assert (m - {k}).Keys == m.Keys - {k};
    k
  }

  lemma {:induction false} SumCountsRemove(m: map<string, nat>, k: string)
    requires k in m
    ensures SumCounts(m) == m[k] + SumCounts(m - {k})
    decreases |m|
  {
    var j := PickKey(m);
    if j != k {
      SumCountsRemove(m - {j}, k);
      SumCountsRemove(m - {k}, j);
      assert m - {j} - {k} == m - {k} - {j};
    }
  }

  /** Counting one more row adds one to the total. */
  lemma SumCountsBump(m: map<string, nat>, k: string)
    ensures SumCounts(Bump(m, k)) == SumCounts(m) + 1
  {
    var b := Bump(m, k);
    SumCountsRemove(b, k);
    if k in m {
      SumCountsRemove(m, k);
      assert b - {k} == m - {k};
    } else {
      assert b - {k} == m;
    }
  }

  /** `sensorTypeCount` after the loop. */
  function TypeCounts(events: seq<SensorEvent>): map<string, nat> {
    if |events| == 0 then map[]
    else Bump(TypeCounts(events[..|events| - 1]), events[|events| - 1].sensorType)
  }

  /** Each type is counted as often as its rows occur. */
  lemma {:induction false} TypeCountsCount(events: seq<SensorEvent>)
    ensures forall k :: CountOf(TypeCounts(events), k) == multiset(Types(events))[k]
  {
    if |events| > 0 {
      var init, last := events[..|events| - 1], events[|events| - 1];
      TypeCountsCount(init);
      assert Types(events) == Types(init) + [last.sensorType];
    }
  }

  /** The counts have a key for exactly the types that occur. */
  lemma {:induction false} TypeCountsKeys(events: seq<SensorEvent>)
    ensures TypeCounts(events).Keys == set e | e in events :: e.sensorType
  {
    if |events| > 0 {
      var init, last := events[..|events| - 1], events[|events| - 1];
      TypeCountsKeys(init);
      assert events == init + [last];
      KeysGrow(init, last);
    }
  }

  /** The counts add up to the number of rows. */
  lemma {:induction false} TypeCountsTotal(events: seq<SensorEvent>)
    ensures SumCounts(TypeCounts(events)) == |events|
  {
    if |events| > 0 {
      var init := events[..|events| - 1];
      TypeCountsTotal(init);
      SumCountsBump(TypeCounts(init), events[|events| - 1].sensorType);
    }
  }

  lemma KeysGrow(init: seq<SensorEvent>, last: SensorEvent)
    ensures (set e | e in init + [last] :: e.sensorType) == (set e | e in init :: e.sensorType) + {last.sensorType}
  {
    var a := set e | e in init + [last] :: e.sensorType;
    var b := (set e | e in init :: e.sensorType) + {last.sensorType};
    forall k | k in a ensures k in b {
      var e :| e in init + [last] && e.sensorType == k;
      if e != last { assert e in init; }
    }
    forall k | k in b ensures k in a {
      if k != last.sensorType {
        var e :| e in init && e.sensorType == k;
        assert e in init + [last];
      } else {
        assert last in init + [last];
      }
    }
  }

  // ---------------------------------------------------------------------------
  // Decoded values

  /** `allValues` after the loop: the decoded values of every row, in row order. */
  function DecodedValues(events: seq<SensorEvent>): seq<real> {
    if |events| == 0 then []
    else DecodedValues(events[..|events| - 1]) + Decode(events[|events| - 1].values).GetOr([])
  }

  lemma {:induction false} DecodedValuesAppend(a: seq<SensorEvent>, b: seq<SensorEvent>)
    ensures DecodedValues(a + b) == DecodedValues(a) + DecodedValues(b)
    decreases |b|
  {
    if |b| > 0 {
      var init := b[..|b| - 1];
      assert (a + b)[..|a + b| - 1] == a + init;
      DecodedValuesAppend(a, init);
    } else {
      assert a + b == a;
    }
  }

  /** A row whose payload does not decode adds no values... */
  lemma UndecodableRowAddsNoValues(before: seq<SensorEvent>, e: SensorEvent, after: seq<SensorEvent>)
    requires Decode(e.values).None?
    ensures DecodedValues(before + [e] + after) == DecodedValues(before + after)
  {
    DecodedValuesAppend(before + [e], after);
    DecodedValuesAppend(before, [e]);
    DecodedValuesAppend(before, after);
    assert [e][..0] == [];
  }

  /** ...yet every row, decodable or not, counts in its type. */
  lemma EveryRowIsCounted(events: seq<SensorEvent>, e: SensorEvent)
    requires e in events
    ensures e.sensorType in TypeCounts(events)
    ensures CountOf(TypeCounts(events), e.sensorType) == multiset(Types(events))[e.sensorType] > 0
  {
    TypeCountsCount(events);
    var i :| 0 <= i < |events| && events[i] == e;
    assert Types(events)[i] == e.sensorType;
  }

  /** Every decoded value comes from a row that decodes to a list holding it. */
  lemma {:induction false} DecodedValuesOrigin(events: seq<SensorEvent>, v: real)
    requires v in DecodedValues(events)
    ensures exists e :: e in events && Decode(e.values).Some? && v in Decode(e.values).value
  {
    var init, last := events[..|events| - 1], events[|events| - 1];
    if v in DecodedValues(init) {
      DecodedValuesOrigin(init, v);
      var e :| e in init && Decode(e.values).Some? && v in Decode(e.values).value;
      assert e in events;
    } else {
      assert last in events;
    }
  }

  /** A LOCATION row is written as a JSON object, so it never contributes values. */
  lemma JsonObjectRowAddsNoValues(before: seq<SensorEvent>, e: SensorEvent)
    requires e.values.JsonObject?
    ensures DecodedValues(before + [e]) == DecodedValues(before)
  {
    assert (before + [e])[..|before|] == before;
  }

  // ---------------------------------------------------------------------------
  // Statistics

  function Sum(vs: seq<real>): real {
    if |vs| == 0 then 0.0 else vs[0] + Sum(vs[1..])
  }

  /** `List<Double>.average()` of a list known to be non-empty. */
  function Average(vs: seq<real>): real
    requires |vs| > 0
  {
    Sum(vs) / |vs| as real
  }

  function Squares(vs: seq<real>): (r: seq<real>)
    ensures |r| == |vs|
  {
    if |vs| == 0 then [] else [vs[0] * vs[0]] + Squares(vs[1..])
  }

  /** The squared distances from `m`. */
  function SquaredDeviations(vs: seq<real>, m: real): (r: seq<real>)
    ensures |r| == |vs|
  {
    if |vs| == 0 then [] else [(vs[0] - m) * (vs[0] - m)] + SquaredDeviations(vs[1..], m)
  }

  function Mean(vs: seq<real>): real {
    if |vs| > 0 then Average(vs) else 0.0
  }

  function Variance(vs: seq<real>): real {
    if |vs| > 0 then Average(SquaredDeviations(vs, Mean(vs))) else 0.0
  }

  /** The mean of the squares; `rms` is its square root. */
  function MeanSquare(vs: seq<real>): real {
    if |vs| > 0 then Average(Squares(vs)) else 0.0
  }

  /** `minOrNull() ?: 0f`. */
  function MinOrZero(vs: seq<real>): (r: real)
    ensures |vs| == 0 ==> r == 0.0
    ensures |vs| > 0 ==> r in vs && forall v :: v in vs ==> r <= v
  {
    if |vs| == 0 then 0.0
    else if |vs| == 1 then vs[0]
    else
      var m := MinOrZero(vs[1..]);
      assert vs == [vs[0]] + vs[1..];
      if vs[0] <= m then vs[0] else m
  }

  /** `maxOrNull() ?: 0f`. */
  function MaxOrZero(vs: seq<real>): (r: real)
    ensures |vs| == 0 ==> r == 0.0
    ensures |vs| > 0 ==> r in vs && forall v :: v in vs ==> v <= r
  {
    if |vs| == 0 then 0.0
    else if |vs| == 1 then vs[0]
    else
      var m := MaxOrZero(vs[1..]);
      assert vs == [vs[0]] + vs[1..];
      if vs[0] >= m then vs[0] else m
  }

  /** `(n + 1) * x` is one more `x` than `n * x`. */
  lemma OneMore(n: real, x: real)
    ensures (n + 1.0) * x == n * x + x
  {
  }

  lemma {:induction false} SumBounds(vs: seq<real>, lo: real, hi: real)
    requires forall v :: v in vs ==> lo <= v <= hi
    ensures |vs| as real * lo <= Sum(vs) <= |vs| as real * hi
  {
    if |vs| > 0 {
      var rest := vs[1..];
      assert forall v :: v in rest ==> v in vs;
      SumBounds(rest, lo, hi);
      assert vs[0] in vs;
      OneMore(|rest| as real, lo);
      OneMore(|rest| as real, hi);
    }
  }

  /** The mean lies between the smallest and the largest value. */
  lemma MeanWithinBounds(vs: seq<real>)
    requires |vs| > 0
    ensures MinOrZero(vs) <= Mean(vs) <= MaxOrZero(vs)
  {
    var lo, hi := MinOrZero(vs), MaxOrZero(vs);
    assert forall v :: v in vs ==> lo <= v <= hi;
    SumBounds(vs, lo, hi);
    MeanBetween(vs, lo, hi);
  }

  lemma MeanBetween(vs: seq<real>, lo: real, hi: real)
    requires |vs| > 0 && |vs| as real * lo <= Sum(vs) <= |vs| as real * hi
    ensures lo <= Mean(vs) <= hi
  {
    DivideBounds(Sum(vs), |vs| as real, lo, hi);
  }

  lemma DivideBounds(s: real, n: real, lo: real, hi: real)
    requires n > 0.0 && n * lo <= s <= n * hi
    ensures lo <= s / n <= hi
  {
    var q := s / n;
    assert s == n * q;
  }

  /** A square is never negative. */
  lemma SquareNonNegative(x: real)
    ensures 0.0 <= x * x
  {
    if x < 0.0 {
      assert x * x == (-x) * (-x);
    }
  }

  /** Sums of squares are non-negative: so are variance and mean square. */
  lemma {:induction false} SquareSumsNonNegative(vs: seq<real>, m: real)
    ensures 0.0 <= Sum(SquaredDeviations(vs, m)) && 0.0 <= Sum(Squares(vs))
  {
    if |vs| > 0 {
      SquareSumsNonNegative(vs[1..], m);
      assert SquaredDeviations(vs, m)[1..] == SquaredDeviations(vs[1..], m);
      assert Squares(vs)[1..] == Squares(vs[1..]);
      SquareNonNegative(vs[0] - m);
      SquareNonNegative(vs[0]);
    }
  }

  lemma VarianceAndMeanSquareNonNegative(vs: seq<real>)
    ensures 0.0 <= Variance(vs) && 0.0 <= MeanSquare(vs)
  {
    if |vs| > 0 {
      SquareSumsNonNegative(vs, Mean(vs));
    }
  }

  // ---------------------------------------------------------------------------
  // The summary

  /** The summary of the matched rows, as the source builds it after its loop. */
  function Summarize(events: seq<SensorEvent>): Summary {
    var values := DecodedValues(events);
    Summary(
      sensorTypeCount := TypeCounts(events),
      totalSamples := |values|,
      mean := Mean(values),
      variance := Variance(values),
      meanSquare := MeanSquare(values),
      minValue := MinOrZero(values),
      maxValue := MaxOrZero(values))
  }

  /** What the stored summary says about the matched rows: one count per sensor type that
      occurs, adding up to the number of rows; one sample per decoded value; all statistics 0
      without samples, and otherwise a minimum and maximum that are samples bounding every
      sample and the mean, with non-negative variance and mean square. */
  lemma SummaryProperties(events: seq<SensorEvent>)
    ensures var s := Summarize(events);
      && s.sensorTypeCount.Keys == (set e | e in events :: e.sensorType)
      && (forall k :: CountOf(s.sensorTypeCount, k) == multiset(Types(events))[k])
      && SumCounts(s.sensorTypeCount) == |events|
      && s.totalSamples == |DecodedValues(events)|
      && 0.0 <= s.variance && 0.0 <= s.meanSquare
    ensures var s := Summarize(events);
      DecodedValues(events) == [] ==>
        s.mean == 0.0 && s.variance == 0.0 && s.meanSquare == 0.0 && s.minValue == 0.0 && s.maxValue == 0.0
    ensures var s := Summarize(events);
      DecodedValues(events) != [] ==>
        && s.minValue in DecodedValues(events) && s.maxValue in DecodedValues(events)
        && (forall v :: v in DecodedValues(events) ==> s.minValue <= v <= s.maxValue)
        && s.minValue <= s.mean <= s.maxValue
  {
    var values := DecodedValues(events);
    if |values| > 0 { MeanWithinBounds(values); }
    VarianceAndMeanSquareNonNegative(values);
    TypeCountsCount(events);
    TypeCountsKeys(events);
    TypeCountsTotal(events);
  }

  /** The worked example: the values 1, 2, 3, 4 give mean 2.5, variance 1.25, mean square 7.5
      (rms = sqrt 7.5), minimum 1 and maximum 4. */
  lemma WorkedExample()
    ensures var vs := [1.0, 2.0, 3.0, 4.0];
      Mean(vs) == 2.5 && Variance(vs) == 1.25 && MeanSquare(vs) == 7.5 && MinOrZero(vs) == 1.0 && MaxOrZero(vs) == 4.0
  {
    var vs := [1.0, 2.0, 3.0, 4.0];
    SumOfFour(1.0, 2.0, 3.0, 4.0);
    assert SquaredDeviations(vs, 2.5) == [2.25, 0.25, 0.25, 2.25] by {
      assert vs[1..] == [2.0, 3.0, 4.0] && vs[1..][1..] == [3.0, 4.0] && vs[1..][1..][1..] == [4.0];
    }
    SumOfFour(2.25, 0.25, 0.25, 2.25);
    assert Squares(vs) == [1.0, 4.0, 9.0, 16.0] by {
      assert vs[1..] == [2.0, 3.0, 4.0] && vs[1..][1..] == [3.0, 4.0] && vs[1..][1..][1..] == [4.0];
    }
    SumOfFour(1.0, 4.0, 9.0, 16.0);
  }

  lemma SumOfFour(a: real, b: real, c: real, d: real)
    ensures Sum([a, b, c, d]) == a + b + c + d
  {
    assert Sum([d]) == d by { assert [d][1..] == []; }
    assert Sum([c, d]) == c + d by { assert [c, d][1..] == [d]; }
    assert Sum([b, c, d]) == b + c + d by { assert [b, c, d][1..] == [c, d]; }
    assert [a, b, c, d][1..] == [b, c, d];
  }
}
