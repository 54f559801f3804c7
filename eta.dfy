/**
 * Arrival-time labels of the bus-tracking dashboard (app/helpers/eta.ts).
 * Distances are kilometres, speeds are as reported by the tracking API and
 * minutes are exact reals; the label is a datatype and `Text` renders it.
 */
module Eta {
  import Decimal

  /** The four strings the helpers can return, plus "N min". */
  datatype Eta = NotMoving | ArrivingNow | UnderOneMinute | Minutes(count: nat)

  function Text(e: Eta): (s: string)
    ensures |s| >= 1
  {
    match e
    case NotMoving => "Not moving"
    case ArrivingNow => "Arriving now"
    case UnderOneMinute => "< 1 min"
    case Minutes(n) => Decimal.NatToString(n) + " min"
  }

  /** JavaScript's `Math.round`: the nearest integer, halves rounded up. */
  function RoundHalfUp(x: real): (n: int)
    ensures n as real - 0.5 <= x < n as real + 0.5
  {
    (x + 0.5).Floor
  }

  /** `formatETA`: the label shown for a number of minutes. */
  function FormatEta(minutes: real): (r: Eta)
    ensures r != NotMoving
    ensures r == ArrivingNow <==> minutes <= 0.0
    ensures r == UnderOneMinute <==> 0.0 < minutes < 1.0
    ensures r == Minutes(1) <==> 1.0 <= minutes < 2.0
    ensures minutes >= 2.0 ==>
              r.Minutes? && r.count >= 2 &&
              r.count as real - 0.5 <= minutes < r.count as real + 0.5
  {
    if minutes <= 0.0 then ArrivingNow
    else if minutes < 1.0 then UnderOneMinute
    else if minutes < 2.0 then Minutes(1)
    else Minutes(RoundHalfUp(minutes))
  }

  /** Minutes to cover `distanceKm` at `speedKmh`. */
  function TravelMinutes(distanceKm: real, speedKmh: real): (m: real)
    requires speedKmh > 0.0
    ensures m * speedKmh == distanceKm * 60.0
  {
    distanceKm / speedKmh * 60.0
  }

  /** `calculateETA`: the speed is taken to be km/h. */
  function CalculateEta(distanceKm: real, speedKmh: real): (r: Eta)
    ensures r == NotMoving <==> speedKmh <= 0.0
    ensures speedKmh > 0.0 ==> r == FormatEta(TravelMinutes(distanceKm, speedKmh))
    ensures speedKmh > 0.0 && distanceKm <= 0.0 ==> r == ArrivingNow
    ensures speedKmh > 0.0 && distanceKm > 0.0 ==> r != ArrivingNow
  {
    if speedKmh <= 0.0 then NotMoving
    else FormatEta(TravelMinutes(distanceKm, speedKmh))
  }

  /**
   * The unit guess of `calculateETASmart`: 30 and above is km/h, below 10
   * on a trip under half a kilometre is km/h, anything else is m/s.
   */
  function EffectiveSpeedKmh(distanceKm: real, speed: real): (kmh: real)
    requires speed > 0.0
    ensures speed >= 30.0 ==> kmh == speed
    ensures speed < 10.0 && distanceKm < 0.5 ==> kmh == speed
    ensures speed < 30.0 && !(speed < 10.0 && distanceKm < 0.5) ==> kmh == speed * 3.6
    ensures kmh >= speed
  {
    if speed < 30.0 then
      if distanceKm < 0.5 && speed < 10.0 then speed else speed * 3.6
    else speed
  }

  /** `calculateETASmart`. */
  function CalculateEtaSmart(distanceKm: real, speed: real): (r: Eta)
    ensures r == NotMoving <==> speed <= 0.0
    ensures speed > 0.0 ==>
              r == FormatEta(TravelMinutes(distanceKm, EffectiveSpeedKmh(distanceKm, speed)))
  {
    if speed <= 0.0 then NotMoving
    else FormatEta(TravelMinutes(distanceKm, EffectiveSpeedKmh(distanceKm, speed)))
  }

  /** Orders the moving labels by how long the wait is. */
  function Wait(e: Eta): (w: nat) {
    match e
    case NotMoving => 0
    case ArrivingNow => 0
    case UnderOneMinute => 1
    case Minutes(n) => n + 1
  }

  /** A longer trip never shows a shorter wait. */
  lemma FormatEtaMonotone(m1: real, m2: real)
    requires m1 <= m2
    ensures Wait(FormatEta(m1)) <= Wait(FormatEta(m2))
  {
    if m1 >= 2.0 {
      var n1, n2 := FormatEta(m1).count, FormatEta(m2).count;
      assert n1 as real - 0.5 <= m1 <= m2 < n2 as real + 0.5;
    }
  }

  /** For a fixed non-negative distance, a faster speed never means more minutes. */
  lemma TravelMinutesAntitone(distanceKm: real, slow: real, fast: real)
    requires distanceKm >= 0.0 && 0.0 < slow <= fast
    ensures TravelMinutes(distanceKm, fast) <= TravelMinutes(distanceKm, slow)
  {
    var k := distanceKm * 60.0;
    var mf, ms := TravelMinutes(distanceKm, fast), TravelMinutes(distanceKm, slow);
    assert mf * (fast * slow) == k * slow;
    assert ms * (fast * slow) == k * fast;
    assert k * slow <= k * fast;
  }

  /**
   * The smart variant never shows a later arrival than `calculateETA` for the
   * same inputs, since its guessed km/h is never below the raw speed.
   */
  lemma SmartNeverLater(distanceKm: real, speed: real)
    ensures Wait(CalculateEtaSmart(distanceKm, speed)) <= Wait(CalculateEta(distanceKm, speed))
  {
    if speed > 0.0 {
      var kmh := EffectiveSpeedKmh(distanceKm, speed);
      if distanceKm >= 0.0 {
        TravelMinutesAntitone(distanceKm, speed, kmh);
        FormatEtaMonotone(TravelMinutes(distanceKm, kmh), TravelMinutes(distanceKm, speed));
      }
    }
  }

  /** Where the speed is taken as km/h, both variants agree. */
  lemma SmartAgreesOnKmh(distanceKm: real, speed: real)
    requires speed >= 30.0 || (0.0 < speed < 10.0 && distanceKm < 0.5)
    ensures CalculateEtaSmart(distanceKm, speed) == CalculateEta(distanceKm, speed)
  {
  }

  /** Elsewhere below 30 the smart variant is `calculateETA` at speed × 3.6. */
  lemma SmartConvertsMetresPerSecond(distanceKm: real, speed: real)
    requires 0.0 < speed < 30.0 && !(speed < 10.0 && distanceKm < 0.5)
    ensures CalculateEtaSmart(distanceKm, speed) == CalculateEta(distanceKm, speed * 3.6)
  {
  }

  /** The label names the label: no two labels render alike. */
  lemma TextInjective(a: Eta, b: Eta)
    requires Text(a) == Text(b)
    ensures a == b
  {
    if a.Minutes? && b.Minutes? {
      var s := Text(a);
      assert Decimal.NatToString(a.count) == s[..|s| - 4] == Decimal.NatToString(b.count);
      Decimal.NatToStringInjective(a.count, b.count);
    } else if a.Minutes? {
      MinutesTextShape(a.count);
    } else if b.Minutes? {
      MinutesTextShape(b.count);
    }
  }

  /** "N min" starts with a digit and ends in " min". */
  lemma MinutesTextShape(n: nat)
    ensures var s := Text(Minutes(n)); |s| >= 5 && Decimal.IsDigit(s[0]) && s[|s| - 4..] == " min"
  {
  }

  /** Sample values: 0, 0.5 and 2.4 minutes; 5 km standing still; 10 km at 20 km/h. */
  lemma Samples()
    ensures Text(FormatEta(0.0)) == "Arriving now"
    ensures Text(FormatEta(0.5)) == "< 1 min"
    ensures Text(FormatEta(2.4)) == "2 min"
    ensures Text(CalculateEta(5.0, 0.0)) == "Not moving"
    ensures Text(CalculateEta(10.0, 20.0)) == "30 min"
  {
    assert RoundHalfUp(2.4) == 2;
    assert TravelMinutes(10.0, 20.0) == 30.0;
    assert RoundHalfUp(30.0) == 30;
    assert Decimal.NatToString(30) == "30";
  }
}
