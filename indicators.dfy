/**
 * The derived indicators of the dashboard page: the weather background class,
 * day/night, the current hourly slot, UV advice, the "outside score" and the
 * best hour to go outside. Instants are milliseconds since the epoch (`int`),
 * measurements are `real`, hourly timestamps are strings `YYYY-MM-DDTHH:MM`.
 */
module Indicators {
  import opened Wrappers
  import opened Strings

  /* ---------- weather background ---------- */

  /** The five body classes that encode the weather; every other class is left alone. */
  const WeatherClasses: set<string> := {"sunny", "cloudy", "rainy", "snowy", "clear-night"}

  /** WMO codes for snowfall and snow showers. */
  const SnowCodes: set<int> := {71, 72, 73, 74, 75, 76, 77, 85, 86}

  /** The class applyWeatherClass puts on the body for a weather code. */
  function WeatherClass(code: int, night: bool): (c: string)
    ensures c in WeatherClasses
    ensures c == "sunny" <==> code == 0 && !night
    ensures c == "clear-night" <==> code == 0 && night
    ensures c == "cloudy" <==> code != 0 && code <= 48
    ensures c == "snowy" <==> code in SnowCodes
    ensures c == "rainy" <==> code > 48 && code !in SnowCodes
  {
    if code == 0 then (if night then "clear-night" else "sunny")
    else if code <= 48 then "cloudy"
    else if (71 <= code <= 77) || (85 <= code <= 86) then "snowy"
    else "rainy"
  }

  /** Drizzle (51-57), rain (61-67), rain showers (80-82) and thunderstorms (95-99) all show as rain. */
  lemma PrecipitationCodesAreRainy(code: int, night: bool)
    requires 51 <= code <= 67 || 80 <= code <= 82 || 95 <= code <= 99
    ensures WeatherClass(code, night) == "rainy"
  {
  }

  /* ---------- day and night ---------- */

  /** isNight: before sunrise or after sunset. */
  function IsNight(now: int, sunrise: int, sunset: int): (night: bool)
    ensures !night <==> sunrise <= now <= sunset
  {
    now < sunrise || now > sunset
  }

  /** The two boundary instants count as day. */
  lemma SunriseAndSunsetAreDay(sunrise: int, sunset: int)
    requires sunrise <= sunset
    ensures !IsNight(sunrise, sunrise, sunset) && !IsNight(sunset, sunrise, sunset)
  {
  }

  /* ---------- current hourly slot ---------- */

  /**
   * currentHourIndex: `findIndex` over the hourly instants for the first one
   * not earlier than `now`, or -1.
   */
  function CurrentHourIndex(hourly: seq<int>, now: int): (r: int)
    ensures -1 <= r < |hourly|
    ensures r == -1 <==> forall i :: 0 <= i < |hourly| ==> hourly[i] < now
    ensures r >= 0 ==> hourly[r] >= now && forall i :: 0 <= i < r ==> hourly[i] < now
  {
    FindFrom(hourly, now, 0)
  }

  /** The first index at or after `from` whose instant is not earlier than `now`, or -1. */
  function FindFrom(hourly: seq<int>, now: int, from: nat): (r: int)
    requires from <= |hourly|
    ensures r == -1 || from <= r < |hourly|
    ensures r == -1 <==> forall i :: from <= i < |hourly| ==> hourly[i] < now
    ensures r >= 0 ==> hourly[r] >= now && forall i :: from <= i < r ==> hourly[i] < now
    decreases |hourly| - from
  {
    if from == |hourly| then -1
    else if hourly[from] >= now then from
    else FindFrom(hourly, now, from + 1)
  }

  /* ---------- UV advice ---------- */

  datatype UvTier = Low | Moderate | High

  function UvRank(t: UvTier): nat {
    match t
    case Low => 0
    case Moderate => 1
    case High => 2
  }

  /** The tier renderUV picks for a UV index. */
  function UvTierOf(uv: real): (t: UvTier)
    ensures t == High <==> uv >= 6.0
    ensures t == Moderate <==> 3.0 <= uv < 6.0
    ensures t == Low <==> uv < 3.0
  {
    if uv >= 6.0 then High else if uv >= 3.0 then Moderate else Low
  }

  /** A higher UV index never gets milder advice. */
  lemma UvTierMonotone(u: real, v: real)
    requires u <= v
    ensures UvRank(UvTierOf(u)) <= UvRank(UvTierOf(v))
  {
  }

  /**
   * renderUV: no badge when today's maximum UV index is missing or `now` lies
   * outside [sunrise, sunset]; otherwise the tier of the index.
   */
  function UvAdvice(uv: Option<real>, now: int, sunrise: int, sunset: int): (a: Option<UvTier>)
    ensures a.Some? <==> uv.Some? && sunrise <= now <= sunset
    ensures a.Some? ==> a.value == UvTierOf(uv.value)
  {
    match uv
    case None => None
    case Some(index) => if IsNight(now, sunrise, sunset) then None else Some(UvTierOf(index))
  }

  /* ---------- outside score ---------- */

  function TempPenalty(temp: real): int {
    if temp < 5.0 || temp > 30.0 then 25 else 0
  }

  function WindPenalty(wind: real): int {
    if wind > 25.0 then 20 else 0
  }

  function RainPenalty(rain: real): int {
    if rain > 2.0 then 30 else 0
  }

  /**
   * The outside score for a temperature, a wind speed and today's rainfall:
   * 100 less the penalties, clamped at 0. The clamp never binds.
   */
  function OutsideScore(temp: real, wind: real, rain: real): (s: int)
    ensures 25 <= s <= 100
    ensures s == 100 - TempPenalty(temp) - WindPenalty(wind) - RainPenalty(rain)
  {
    var raw := 100 - TempPenalty(temp) - WindPenalty(wind) - RainPenalty(rain);
    if raw < 0 then 0 else raw
  }

  lemma ScoreNonIncreasingInRain(temp: real, wind: real, r1: real, r2: real)
    requires r1 <= r2
    ensures OutsideScore(temp, wind, r2) <= OutsideScore(temp, wind, r1)
  {
  }

  lemma ScoreNonIncreasingInWind(temp: real, w1: real, w2: real, rain: real)
    requires w1 <= w2
    ensures OutsideScore(temp, w2, rain) <= OutsideScore(temp, w1, rain)
  {
  }

  /** Moving the temperature away from the comfortable band [5, 30] never raises the score. */
  lemma ScoreNonIncreasingAwayFromComfort(t1: real, t2: real, wind: real, rain: real)
    requires (t2 <= t1 && t1 <= 30.0) || (t1 <= t2 && 5.0 <= t1)
    ensures OutsideScore(t2, wind, rain) <= OutsideScore(t1, wind, rain)
  {
  }

  /**
   * Today's rainfall: the sum of `precipitation[i]` over the hourly entries
   * whose timestamp starts with `today` (the first daily date).
   */
  function RainToday(hourlyTime: seq<string>, precipitation: seq<real>, today: string): (r: real)
    requires |precipitation| == |hourlyTime|
    ensures (forall i :: 0 <= i < |hourlyTime| ==> !StartsWith(hourlyTime[i], today)) ==> r == 0.0
    decreases |hourlyTime|
  {
    if |hourlyTime| == 0 then 0.0
    else
      var n := |hourlyTime| - 1;
      RainToday(hourlyTime[..n], precipitation[..n], today)
        + (if StartsWith(hourlyTime[n], today) then precipitation[n] else 0.0)
  }

  /** Rainfall recorded against another day never changes today's total. */
  lemma {:induction false} RainTodayIgnoresOtherDays(
    hourlyTime: seq<string>, precipitation: seq<real>, today: string, i: nat, amount: real)
    requires |precipitation| == |hourlyTime| && i < |hourlyTime|
    requires !StartsWith(hourlyTime[i], today)
    ensures RainToday(hourlyTime, precipitation[i := amount], today)
         == RainToday(hourlyTime, precipitation, today)
    decreases |hourlyTime|
  {
    var n := |hourlyTime| - 1;
    var changed := precipitation[i := amount];
    if i < n {
      assert changed[..n] == precipitation[..n][i := amount];
      RainTodayIgnoresOtherDays(hourlyTime[..n], precipitation[..n], today, i, amount);
    } else {
      assert changed[..n] == precipitation[..n];
    }
  }

  /** With no negative readings, today's rainfall is not negative. */
  lemma {:induction false} RainTodayNonNegative(hourlyTime: seq<string>, precipitation: seq<real>, today: string)
    requires |precipitation| == |hourlyTime|
    requires forall i :: 0 <= i < |precipitation| ==> precipitation[i] >= 0.0
    ensures RainToday(hourlyTime, precipitation, today) >= 0.0
    decreases |hourlyTime|
  {
    if |hourlyTime| > 0 {
      var n := |hourlyTime| - 1;
      RainTodayNonNegative(hourlyTime[..n], precipitation[..n], today);
    }
  }

  /**
   * calculateOutsideScore: the penalties for temperature and wind, then a pass
   * over the hourly series summing today's rainfall, then the rain penalty.
   */
  method CalculateOutsideScore(
    temp: real, wind: real, hourlyTime: seq<string>, precipitation: seq<real>, today: string)
    returns (score: int)
    requires |precipitation| == |hourlyTime|
    ensures score == OutsideScore(temp, wind, RainToday(hourlyTime, precipitation, today))
    ensures 25 <= score <= 100
  {
    score := 100;
    if temp < 5.0 || temp > 30.0 { score := score - 25; }
    if wind > 25.0 { score := score - 20; }

    var rain := 0.0;
    var i := 0;
    while i < |hourlyTime|
      invariant 0 <= i <= |hourlyTime|
      invariant rain == RainToday(hourlyTime[..i], precipitation[..i], today)
    {
      assert hourlyTime[..i + 1][..i] == hourlyTime[..i];
      assert precipitation[..i + 1][..i] == precipitation[..i];
      if StartsWith(hourlyTime[i], today) { rain := rain + precipitation[i]; }
      i := i + 1;
    }
    assert hourlyTime[..i] == hourlyTime && precipitation[..i] == precipitation;

    if rain > 2.0 { score := score - 30; }
    score := if score < 0 then 0 else score;
  }

  /** The band renderCurrent colours the score with. */
  datatype ScoreBand = Bad | Okay | Good

  function BandOf(score: int): (b: ScoreBand)
    ensures b == Bad <==> score < 40
    ensures b == Okay <==> 40 <= score < 70
    ensures b == Good <==> score >= 70
  {
    if score < 40 then Bad else if score < 70 then Okay else Good
  }

  function PenaltyCount(temp: real, wind: real, rain: real): nat {
    (if TempPenalty(temp) > 0 then 1 else 0)
      + (if WindPenalty(wind) > 0 then 1 else 0)
      + (if RainPenalty(rain) > 0 then 1 else 0)
  }

  /** The band counts the penalties: good for at most one, okay for two, bad for all three. */
  lemma BandCountsPenalties(temp: real, wind: real, rain: real)
    ensures BandOf(OutsideScore(temp, wind, rain)) ==
      match PenaltyCount(temp, wind, rain)
      case 3 => Bad
      case 2 => Okay
      case _ => Good
  {
  }

  /* ---------- best hour outside ---------- */

  /** The timestamp carries two decimal digits for the hour at positions 11 and 12. */
  predicate HasHour(stamp: string) {
    |stamp| >= 13 && IsDigit(stamp[11]) && IsDigit(stamp[12])
  }

  predicate AllHaveHours(hourlyTime: seq<string>) {
    forall i :: 0 <= i < |hourlyTime| ==> HasHour(hourlyTime[i])
  }

  /** `Number(stamp.slice(11, 13))`. */
  function HourOf(stamp: string): (h: int)
    requires HasHour(stamp)
    ensures 0 <= h <= 99
    ensures h / 10 == DigitValue(stamp[11]) && h % 10 == DigitValue(stamp[12])
  {
    TwoDigits(stamp, 11)
  }

  /** The score of one hour: 100, less 40 for more than 0.5 mm of rain, less 20 for wind above 20. */
  function HourScore(precipitation: real, wind: real): (s: int)
    ensures s in {40, 60, 80, 100}
    ensures s > 50 <==> precipitation <= 0.5 || wind <= 20.0
  {
    100 - (if precipitation > 0.5 then 40 else 0) - (if wind > 20.0 then 20 else 0)
  }

  /** Entry `i` is from today and its hour lies in 9..19. */
  predicate Eligible(hourlyTime: seq<string>, today: string, i: nat)
    requires i < |hourlyTime| && HasHour(hourlyTime[i])
  {
    StartsWith(hourlyTime[i], today) && 9 <= HourOf(hourlyTime[i]) <= 19
  }

  /** A candidate best hour: the hourly entry it comes from, its hour and its score. */
  datatype Candidate = Candidate(index: nat, hour: int, score: int)

  /** The hourly series as renderBestHours reads it: aligned arrays with an hour in every stamp. */
  predicate WellFormedSeries(hourlyTime: seq<string>, precipitation: seq<real>, windspeed: seq<real>) {
    |precipitation| == |hourlyTime| && |windspeed| == |hourlyTime| && AllHaveHours(hourlyTime)
  }

  /**
   * The best candidate among the first `k` hourly entries, scanning in order
   * and replacing the current best only on a strictly higher score.
   */
  function BestAmong(
    hourlyTime: seq<string>, precipitation: seq<real>, windspeed: seq<real>, today: string, k: nat)
    : (best: Option<Candidate>)
    requires WellFormedSeries(hourlyTime, precipitation, windspeed) && k <= |hourlyTime|
    ensures best.Some? ==> best.value.index < k && Eligible(hourlyTime, today, best.value.index)
    ensures best.Some? ==> best.value.score == HourScore(precipitation[best.value.index], windspeed[best.value.index])
  {
    if k == 0 then None
    else
      var best := BestAmong(hourlyTime, precipitation, windspeed, today, k - 1);
      var i := k - 1;
      if !Eligible(hourlyTime, today, i) then best
      else
        var c := Candidate(i, HourOf(hourlyTime[i]), HourScore(precipitation[i], windspeed[i]));
        if best.None? || c.score > best.value.score then Some(c) else best
  }

  /** The number of entries renderBestHours inspects: all but the last one. */
  function Inspected(n: nat): (m: nat)
    ensures m <= n && (n > 0 ==> m == n - 1)
  {
    if n == 0 then 0 else n - 1
  }

  /**
   * What the scan finds: nothing exactly when no entry is eligible; otherwise
   * an eligible entry of today in 9..19 whose score is the maximum, and the
   * earliest entry with that score.
   */
  lemma {:induction false} BestAmongIsEarliestMaximum(
    hourlyTime: seq<string>, precipitation: seq<real>, windspeed: seq<real>, today: string, k: nat)
    requires WellFormedSeries(hourlyTime, precipitation, windspeed) && k <= |hourlyTime|
    ensures var best := BestAmong(hourlyTime, precipitation, windspeed, today, k);
      && (best.None? <==> forall i :: 0 <= i < k ==> !Eligible(hourlyTime, today, i))
      && (best.Some? ==>
            var c := best.value;
            && c.index < k
            && Eligible(hourlyTime, today, c.index)
            && StartsWith(hourlyTime[c.index], today)
            && c.hour == HourOf(hourlyTime[c.index]) && 9 <= c.hour <= 19
            && c.score == HourScore(precipitation[c.index], windspeed[c.index])
            && (forall i :: 0 <= i < k && Eligible(hourlyTime, today, i) ==>
                  HourScore(precipitation[i], windspeed[i]) <= c.score)
            && (forall i :: 0 <= i < c.index && Eligible(hourlyTime, today, i) ==>
                  HourScore(precipitation[i], windspeed[i]) < c.score))
  {
    if k > 0 {
      BestAmongIsEarliestMaximum(hourlyTime, precipitation, windspeed, today, k - 1);
    }
  }

  /**
   * The scan of renderBestHours: indices 0 .. length-2, skipping entries of
   * other days and hours outside 9..19, keeping the first highest score.
   */
  method SelectBestHour(hourlyTime: seq<string>, precipitation: seq<real>, windspeed: seq<real>, today: string)
    returns (best: Option<Candidate>)
    requires WellFormedSeries(hourlyTime, precipitation, windspeed)
    ensures best == BestAmong(hourlyTime, precipitation, windspeed, today, Inspected(|hourlyTime|))
  {
    best := None;
    var i := 0;
    while i < |hourlyTime| - 1
      invariant 0 <= i <= Inspected(|hourlyTime|)
      invariant best == BestAmong(hourlyTime, precipitation, windspeed, today, i)
    {
      if !StartsWith(hourlyTime[i], today) { i := i + 1; continue; }
      var h := HourOf(hourlyTime[i]);
      if h < 9 || h > 19 { i := i + 1; continue; }

      var score := 100;
      if precipitation[i] > 0.5 { score := score - 40; }
      if windspeed[i] > 20.0 { score := score - 20; }

      if best.None? || score > best.value.score {
        best := Some(Candidate(i, h, score));
      }
      i := i + 1;
    }
  }

  /** The hour the page announces: only when the best score exceeds 50. */
  function BannerHour(best: Option<Candidate>): (h: Option<int>)
    ensures h.Some? <==> best.Some? && best.value.score > 50
    ensures h.Some? ==> h.value == best.value.hour
  {
    if best.Some? && best.value.score > 50 then Some(best.value.hour) else None
  }

  /**
   * A best hour is announced exactly when some inspected entry of today in
   * 9..19 escapes one of the two penalties: it is suppressed only when every
   * such hour has both more than 0.5 mm of rain and wind above 20.
   */
  lemma BannerIffDryHour(
    hourlyTime: seq<string>, precipitation: seq<real>, windspeed: seq<real>, today: string, k: nat)
    requires WellFormedSeries(hourlyTime, precipitation, windspeed) && k <= |hourlyTime|
    ensures BannerHour(BestAmong(hourlyTime, precipitation, windspeed, today, k)).Some?
        <==> exists i :: 0 <= i < k && Eligible(hourlyTime, today, i)
                                && (precipitation[i] <= 0.5 || windspeed[i] <= 20.0)
  {
    BestAmongIsEarliestMaximum(hourlyTime, precipitation, windspeed, today, k);
    var best := BestAmong(hourlyTime, precipitation, windspeed, today, k);
    if best.Some? && best.value.score > 50 {
      var j := best.value.index;
      assert 0 <= j < k && Eligible(hourlyTime, today, j) && (precipitation[j] <= 0.5 || windspeed[j] <= 20.0);
    }
  }
}
