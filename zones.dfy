/**
 * zones.py: the heart-rate and power zone ladders and `clean_nan`.
 *
 * Each ladder tests `reading < cut` for increasing cuts and returns the first zone
 * whose test succeeds, so every cut is the inclusive lower bound of the next zone.
 * The reference definition below counts how many cuts lie at or below the reading.
 */
module Zones {
  import opened Wrappers
  import opened Text
  import opened Values

  const HeartRateCuts: seq<real> := [120.0, 140.0, 160.0, 180.0]
  const PowerCuts: seq<real> := [120.0, 134.0, 168.0, 193.0, 210.0, 238.0]

  /** Python's `x < bound`: every comparison with NaN is False. */
  predicate Below(x: Float, bound: real): (b: bool)
    ensures x.NaN? || x.PosInf? ==> !b
    ensures x.NegInf? ==> b
    ensures x.Finite? ==> (b <==> x.r < bound)
  {
    match x
    case Finite(r) => r < bound
    case NegInf => true
    case PosInf => false
    case NaN => false
  }

  function ZoneName(n: nat): string
    requires 1 <= n <= 9
  {
    "Zone " + [DigitChar(n)]
  }

  lemma ZoneNameInjective(m: nat, n: nat)
    requires 1 <= m <= 9 && 1 <= n <= 9
    requires ZoneName(m) == ZoneName(n)
    ensures m == n
  {
    assert ZoneName(m)[5] == DigitChar(m);
  }

  lemma ZoneNames()
    ensures ZoneName(1) == "Zone 1" && ZoneName(2) == "Zone 2" && ZoneName(3) == "Zone 3"
    ensures ZoneName(4) == "Zone 4" && ZoneName(5) == "Zone 5" && ZoneName(6) == "Zone 6"
    ensures ZoneName(7) == "Zone 7"
  {
  }

  /** `get_heart_rate_zone`. */
  function HeartRateZone(hr: Option<Float>): (z: Option<string>)
    ensures z.None? <==> hr.None?
    ensures z.Some? ==> z.value in {"Zone 1", "Zone 2", "Zone 3", "Zone 4", "Zone 5"}
  {
    if hr.None? then None
    else if Below(hr.value, 120.0) then Some("Zone 1")
    else if Below(hr.value, 140.0) then Some("Zone 2")
    else if Below(hr.value, 160.0) then Some("Zone 3")
    else if Below(hr.value, 180.0) then Some("Zone 4")
    else Some("Zone 5")
  }

  /** `get_power_zone`. */
  function PowerZone(power: Option<Float>): (z: Option<string>)
    ensures z.None? <==> power.None?
    ensures z.Some? ==> z.value in {"Zone 1", "Zone 2", "Zone 3", "Zone 4", "Zone 5", "Zone 6", "Zone 7"}
  {
    if power.None? then None
    else if Below(power.value, 120.0) then Some("Zone 1")
    else if Below(power.value, 134.0) then Some("Zone 2")
    else if Below(power.value, 168.0) then Some("Zone 3")
    else if Below(power.value, 193.0) then Some("Zone 4")
    else if Below(power.value, 210.0) then Some("Zone 5")
    else if Below(power.value, 238.0) then Some("Zone 6")
    else Some("Zone 7")
  }

  // ---------------------------------------------------------------------------
  // Reference definition: zone n + 1 holds the readings with exactly n cuts at or below them.

  function CountAtMost(cuts: seq<real>, x: real): (c: nat)
    ensures c <= |cuts|
  {
    if cuts == [] then 0 else (if cuts[0] <= x then 1 else 0) + CountAtMost(cuts[1..], x)
  }

  predicate StrictlyIncreasing(cuts: seq<real>) {
    forall i, j :: 0 <= i < j < |cuts| ==> cuts[i] < cuts[j]
  }

  /** Zone n (1-based) is the half-open interval `[cuts[n-2], cuts[n-1])`, open-ended at both extremes. */
  predicate InZone(cuts: seq<real>, n: nat, x: real)
    requires 1 <= n <= |cuts| + 1
  {
    (n == 1 || cuts[n - 2] <= x) && (n == |cuts| + 1 || x < cuts[n - 1])
  }

  lemma {:induction false} CountAtMostMonotone(cuts: seq<real>, a: real, b: real)
    requires a <= b
    ensures CountAtMost(cuts, a) <= CountAtMost(cuts, b)
  {
    if cuts != [] {
      CountAtMostMonotone(cuts[1..], a, b);
    }
  }

  /** For increasing cuts, the count picks out the one interval the reading lies in. */
  lemma {:induction false} CountAtMostInZone(cuts: seq<real>, x: real, n: nat)
    requires StrictlyIncreasing(cuts)
    requires 1 <= n <= |cuts| + 1
    ensures CountAtMost(cuts, x) + 1 == n <==> InZone(cuts, n, x)
  {
    if cuts != [] {
      var rest := cuts[1..];
      assert StrictlyIncreasing(rest);
      if x < cuts[0] {
        CountAtMostZero(cuts, x);
      } else if n >= 2 {
        CountAtMostInZone(rest, x, n - 1);
        assert forall i :: 0 <= i < |rest| ==> rest[i] == cuts[i + 1];
      } else {
        assert CountAtMost(cuts, x) >= 1;
      }
    }
  }

  lemma {:induction false} CountAtMostZero(cuts: seq<real>, x: real)
    requires StrictlyIncreasing(cuts)
    requires cuts != [] && x < cuts[0]
    ensures CountAtMost(cuts, x) == 0
  {
    var rest := cuts[1..];
    if rest != [] {
      assert StrictlyIncreasing(rest);
      CountAtMostZero(rest, x);
    }
  }

  /** The heart-rate ladder is the reference definition over its four cuts. */
  lemma HeartRateZoneByCuts(x: real)
    ensures HeartRateZone(Some(Finite(x))) == Some(ZoneName(CountAtMost(HeartRateCuts, x) + 1))
  {
    var n := if x < 120.0 then 1 else if x < 140.0 then 2 else if x < 160.0 then 3
             else if x < 180.0 then 4 else 5;
    CountAtMostInZone(HeartRateCuts, x, n);
    assert CountAtMost(HeartRateCuts, x) + 1 == n;
    ZoneNames();
  }

  /** The power ladder is the reference definition over its six cuts. */
  lemma PowerZoneByCuts(x: real)
    ensures PowerZone(Some(Finite(x))) == Some(ZoneName(CountAtMost(PowerCuts, x) + 1))
  {
    var n := if x < 120.0 then 1 else if x < 134.0 then 2 else if x < 168.0 then 3
             else if x < 193.0 then 4 else if x < 210.0 then 5 else if x < 238.0 then 6 else 7;
    CountAtMostInZone(PowerCuts, x, n);
    assert CountAtMost(PowerCuts, x) + 1 == n;
    ZoneNames();
  }

  /** Zone n of heart rate is exactly the readings in `[cut n-1, cut n)`: lower bounds inclusive. */
  lemma HeartRateZoneBounds(x: real, n: nat)
    requires 1 <= n <= 5
    ensures HeartRateZone(Some(Finite(x))) == Some(ZoneName(n)) <==> InZone(HeartRateCuts, n, x)
  {
    HeartRateZoneByCuts(x);
    CountAtMostInZone(HeartRateCuts, x, n);
    if HeartRateZone(Some(Finite(x))) == Some(ZoneName(n)) {
      ZoneNameInjective(CountAtMost(HeartRateCuts, x) + 1, n);
    }
  }

  /** Zone n of power is exactly the readings in `[cut n-1, cut n)`: lower bounds inclusive. */
  lemma PowerZoneBounds(x: real, n: nat)
    requires 1 <= n <= 7
    ensures PowerZone(Some(Finite(x))) == Some(ZoneName(n)) <==> InZone(PowerCuts, n, x)
  {
    PowerZoneByCuts(x);
    CountAtMostInZone(PowerCuts, x, n);
    if PowerZone(Some(Finite(x))) == Some(ZoneName(n)) {
      ZoneNameInjective(CountAtMost(PowerCuts, x) + 1, n);
    }
  }

  /** A higher heart rate never lands in a lower zone. */
  lemma HeartRateZoneMonotone(a: real, b: real, m: nat, n: nat)
    requires a <= b && 1 <= m <= 5 && 1 <= n <= 5
    requires HeartRateZone(Some(Finite(a))) == Some(ZoneName(m))
    requires HeartRateZone(Some(Finite(b))) == Some(ZoneName(n))
    ensures m <= n
  {
    HeartRateZoneByCuts(a);
    HeartRateZoneByCuts(b);
    ZoneNameInjective(CountAtMost(HeartRateCuts, a) + 1, m);
    ZoneNameInjective(CountAtMost(HeartRateCuts, b) + 1, n);
    CountAtMostMonotone(HeartRateCuts, a, b);
  }

  /** A higher power never lands in a lower zone. */
  lemma PowerZoneMonotone(a: real, b: real, m: nat, n: nat)
    requires a <= b && 1 <= m <= 7 && 1 <= n <= 7
    requires PowerZone(Some(Finite(a))) == Some(ZoneName(m))
    requires PowerZone(Some(Finite(b))) == Some(ZoneName(n))
    ensures m <= n
  {
    PowerZoneByCuts(a);
    PowerZoneByCuts(b);
    ZoneNameInjective(CountAtMost(PowerCuts, a) + 1, m);
    ZoneNameInjective(CountAtMost(PowerCuts, b) + 1, n);
    CountAtMostMonotone(PowerCuts, a, b);
  }

  /** The boundary readings on either side of a cut. */
  lemma ZoneBoundaries()
    ensures HeartRateZone(Some(Finite(119.0))) == Some("Zone 1")
    ensures HeartRateZone(Some(Finite(120.0))) == Some("Zone 2")
    ensures HeartRateZone(Some(Finite(179.0))) == Some("Zone 4")
    ensures HeartRateZone(Some(Finite(180.0))) == Some("Zone 5")
    ensures HeartRateZone(Some(Finite(-5.0))) == Some("Zone 1")
    ensures PowerZone(Some(Finite(237.0))) == Some("Zone 6")
    ensures PowerZone(Some(Finite(238.0))) == Some("Zone 7")
    ensures PowerZone(Some(Finite(-5.0))) == Some("Zone 1")
  {
  }

  /**
   * As written, a NaN reading fails every `<` test and falls through to the top zone,
   * although a missing reading (None) gets no zone.
   */
  lemma NaNReadingGetsTopZone()
    ensures HeartRateZone(Some(NaN)) == Some("Zone 5")
    ensures PowerZone(Some(NaN)) == Some("Zone 7")
  {
  }

  /** Heart-rate zone with NaN treated like a missing reading. */
  function HeartRateZoneOfReading(hr: Option<Float>): (z: Option<string>)
    ensures z.None? <==> hr.None? || hr.value.NaN?
    ensures hr.Some? && !hr.value.NaN? ==> z == HeartRateZone(hr)
  {
    if hr.Some? && hr.value.NaN? then None else HeartRateZone(hr)
  }

  /** Power zone with NaN treated like a missing reading. */
  function PowerZoneOfReading(power: Option<Float>): (z: Option<string>)
    ensures z.None? <==> power.None? || power.value.NaN?
    ensures power.Some? && !power.value.NaN? ==> z == PowerZone(power)
  {
    if power.Some? && power.value.NaN? then None else PowerZone(power)
  }

  // ---------------------------------------------------------------------------
  // clean_nan

  predicate IsNaN(v: Value) {
    v.FloatValue? && v.f.NaN?
  }

  /** `clean_nan`: a new dict with the same keys, NaN floats replaced by None. */
  method CleanNan(data: Record) returns (cleaned: Record)
    ensures cleaned.Keys == data.Keys
    ensures forall k :: k in data && IsNaN(data[k]) ==> cleaned[k] == NoneValue
    ensures forall k :: k in data && !IsNaN(data[k]) ==> cleaned[k] == data[k]
    ensures forall k :: k in cleaned ==> !IsNaN(cleaned[k])
  {
    cleaned := map[];
    var todo := data.Keys;
    while todo != {}
      invariant todo <= data.Keys
      invariant cleaned.Keys == data.Keys - todo
      invariant forall k :: k in cleaned ==> cleaned[k] == if IsNaN(data[k]) then NoneValue else data[k]
      decreases todo
    {
      var key :| key in todo;
      var value := data[key];
      if IsNaN(value) {
        cleaned := cleaned[key := NoneValue];
      } else {
        cleaned := cleaned[key := value];
      }
      todo := todo - {key};
    }
  }
}
