/**
 * The page's mutable state: the body's class list, the key-value store
 * (localStorage), the module-level `showFeelsLike` and `lastRequest`, and what
 * the main output area shows. The handlers of script.js become the methods of
 * `Dashboard`.
 */
module Page {
  import opened Wrappers
  import opened Indicators

  const DarkKey := "nimbus_dark"
  const FeelsKey := "nimbus_feels"
  const LastWeatherKey := "nimbus_last_weather"

  /**
   * The part of a forecast response the page reads: current conditions, the
   * first day of the daily series, and the hourly series. Instants are
   * milliseconds since the epoch.
   */
  datatype Forecast = Forecast(
    currentTime: int,
    temperature: real,
    windspeed: real,
    weathercode: int,
    today: string,
    sunrise: int,
    sunset: int,
    uvIndexMax: Option<real>,
    hourlyTime: seq<string>,
    precipitation: seq<real>,
    hourlyWindspeed: seq<real>)

  /** The record kept under `nimbus_last_weather`: the place label, the forecast and when it was fetched. */
  datatype Snapshot = Snapshot(place: string, data: Forecast, time: int)

  /**
   * A stored value: plain text, or the JSON text of a snapshot, which
   * `JSON.parse` turns back into the same snapshot.
   */
  datatype Stored = Text(text: string) | Json(snapshot: Snapshot)

  datatype LastRequest = LastRequest(lat: real, lon: real, place: string)

  /** The result of the forecast request: the parsed body of an OK response, or any failure. */
  datatype FetchOutcome = Fetched(data: Forecast) | FetchFailed

  /** The main output area: untouched, the loading text, or a rendered snapshot. */
  datatype View = Blank | Loading | Showing(snapshot: Snapshot, offline: bool)

  /** How a boolean preference is written: "1" or "0". */
  function FlagText(b: bool): string {
    if b then "1" else "0"
  }

  /** How a preference is read back on page load: on only for the text "1". */
  predicate FlagOn(storage: map<string, Stored>, key: string) {
    key in storage && storage[key] == Text("1")
  }

  /** Writing a preference and reading it back gives the same value. */
  lemma FlagRoundTrip(storage: map<string, Stored>, key: string, b: bool)
    ensures FlagOn(storage[key := Text(FlagText(b))], key) == b
  {
  }

  /** The snapshot under `nimbus_last_weather`, if one is stored. */
  function StoredSnapshot(storage: map<string, Stored>): (s: Option<Snapshot>)
    ensures s.Some? <==> LastWeatherKey in storage && storage[LastWeatherKey].Json?
    ensures s.Some? ==> storage[LastWeatherKey] == Json(s.value)
  {
    if LastWeatherKey in storage && storage[LastWeatherKey].Json? then Some(storage[LastWeatherKey].snapshot)
    else None
  }

  /** The body classes after applyWeatherClass: exactly one weather class, all others kept. */
  function AppliedClasses(classes: set<string>, code: int, night: bool): (r: set<string>)
    ensures r * WeatherClasses == {WeatherClass(code, night)}
    ensures forall c :: c !in WeatherClasses ==> (c in r <==> c in classes)
  {
    classes - WeatherClasses + {WeatherClass(code, night)}
  }

  /** Applying the same weather twice is the same as applying it once. */
  lemma AppliedClassesIdempotent(classes: set<string>, code: int, night: bool)
    ensures AppliedClasses(AppliedClasses(classes, code, night), code, night)
         == AppliedClasses(classes, code, night)
  {
  }

  /** The body classes after renderCurrent shows a forecast. */
  function ClassesFor(classes: set<string>, f: Forecast): (r: set<string>)
    ensures r * WeatherClasses == {WeatherClass(f.weathercode, IsNight(f.currentTime, f.sunrise, f.sunset))}
    ensures forall c :: c !in WeatherClasses ==> (c in r <==> c in classes)
  {
    AppliedClasses(classes, f.weathercode, IsNight(f.currentTime, f.sunrise, f.sunset))
  }

  /** `classList.toggle(name)`. */
  function Toggled(classes: set<string>, name: string): (r: set<string>)
    ensures name in r <==> name !in classes
    ensures forall c :: c != name ==> (c in r <==> c in classes)
  {
    if name in classes then classes - {name} else classes + {name}
  }

  class Dashboard {
    var classes: set<string>
    var storage: map<string, Stored>
    var showFeelsLike: bool
    var lastRequest: Option<LastRequest>
    var view: View

    /** Page load: read the two preferences from storage and restore dark mode. */
    constructor (bodyClasses: set<string>, stored: map<string, Stored>)
      ensures storage == stored
      ensures showFeelsLike == FlagOn(stored, FeelsKey)
      ensures classes == if FlagOn(stored, DarkKey) then bodyClasses + {"dark"} else bodyClasses
      ensures lastRequest == None && view == Blank
    {
      storage := stored;
      showFeelsLike := FlagOn(stored, FeelsKey);
      lastRequest := None;
      view := Blank;
      classes := bodyClasses;
      if FlagOn(stored, DarkKey) {
        classes := classes + {"dark"};
      }
    }

    /** The stored feels-like preference agrees with the one in use. */
    predicate FeelsPersisted()
      reads this
    {
      FeelsKey in storage && storage[FeelsKey] == Text(FlagText(showFeelsLike))
    }

    /** The stored dark-mode preference agrees with the body. */
    predicate DarkPersisted()
      reads this
    {
      DarkKey in storage && storage[DarkKey] == Text(FlagText("dark" in classes))
    }

    method ClearWeatherClasses()
      modifies this
      ensures classes == old(classes) - WeatherClasses
      ensures storage == old(storage) && showFeelsLike == old(showFeelsLike)
      ensures lastRequest == old(lastRequest) && view == old(view)
    {
      classes := classes - {"sunny", "cloudy", "rainy", "snowy", "clear-night"};
    }

    method ApplyWeatherClass(code: int, night: bool)
      modifies this
      ensures classes == AppliedClasses(old(classes), code, night)
      ensures storage == old(storage) && showFeelsLike == old(showFeelsLike)
      ensures lastRequest == old(lastRequest) && view == old(view)
    {
      ClearWeatherClasses();
      if code == 0 {
        classes := classes + {if night then "clear-night" else "sunny"};
      } else if code <= 48 {
        classes := classes + {"cloudy"};
      } else if (71 <= code <= 77) || (85 <= code <= 86) {
        classes := classes + {"snowy"};
      } else {
        classes := classes + {"rainy"};
      }
    }

    /**
     * renderCurrent, as far as page state goes: the weather class of the
     * snapshot's conditions and the snapshot shown, marked offline or not.
     */
    method RenderCurrent(saved: Snapshot, offline: bool)
      modifies this
      ensures classes == ClassesFor(old(classes), saved.data)
      ensures view == Showing(saved, offline)
      ensures storage == old(storage) && showFeelsLike == old(showFeelsLike)
      ensures lastRequest == old(lastRequest)
    {
      var data := saved.data;
      ApplyWeatherClass(data.weathercode, IsNight(data.currentTime, data.sunrise, data.sunset));
      view := Showing(saved, offline);
    }

    /** The dark-mode button: toggle the class and store whether it is now on. */
    method ToggleDark()
      modifies this
      ensures classes == Toggled(old(classes), "dark")
      ensures storage == old(storage)[DarkKey := Text(FlagText("dark" !in old(classes)))]
      ensures DarkPersisted()
      ensures old(FeelsPersisted()) ==> FeelsPersisted()
      ensures showFeelsLike == old(showFeelsLike) && lastRequest == old(lastRequest) && view == old(view)
    {
      classes := Toggled(classes, "dark");
      storage := storage[DarkKey := Text(if "dark" in classes then "1" else "0")];
    }

    /**
     * The feels-like button: flip the preference, store it, and re-render the
     * stored snapshot (as online data) if there is one.
     */
    method ToggleFeels()
      modifies this
      ensures showFeelsLike == !old(showFeelsLike)
      ensures storage == old(storage)[FeelsKey := Text(FlagText(showFeelsLike))]
      ensures FeelsPersisted()
      ensures old(DarkPersisted()) ==> DarkPersisted()
      ensures lastRequest == old(lastRequest)
      ensures match StoredSnapshot(old(storage))
        case Some(saved) => view == Showing(saved, false) && classes == ClassesFor(old(classes), saved.data)
        case None => view == old(view) && classes == old(classes)
    {
      showFeelsLike := !showFeelsLike;
      storage := storage[FeelsKey := Text(if showFeelsLike then "1" else "0")];
      var cached := StoredSnapshot(storage);
      if cached.Some? {
        RenderCurrent(cached.value, false);
      }
    }

    /**
     * fetchWeather: remember the request and show the loading text; on
     * success overwrite the one stored snapshot and show it; on failure show
     * the stored snapshot marked offline, if there is one, and change nothing
     * in storage.
     */
    method FetchWeather(lat: real, lon: real, place: string, outcome: FetchOutcome, now: int)
      modifies this
      ensures lastRequest == Some(LastRequest(lat, lon, place))
      ensures showFeelsLike == old(showFeelsLike)
      ensures old(FeelsPersisted()) ==> FeelsPersisted()
      ensures old(DarkPersisted()) ==> DarkPersisted()
      ensures outcome.Fetched? ==>
        var saved := Snapshot(place, outcome.data, now);
        && storage == old(storage)[LastWeatherKey := Json(saved)]
        && StoredSnapshot(storage) == Some(saved)
        && view == Showing(saved, false)
        && classes == ClassesFor(old(classes), outcome.data)
      ensures outcome.FetchFailed? ==>
        && storage == old(storage)
        && match StoredSnapshot(old(storage))
           case Some(saved) => view == Showing(saved, true) && classes == ClassesFor(old(classes), saved.data)
           case None => view == Loading && classes == old(classes)
    {
      lastRequest := Some(LastRequest(lat, lon, place));
      view := Loading;

      match outcome
      case Fetched(data) =>
        var saved := Snapshot(place, data, now);
        storage := storage[LastWeatherKey := Json(saved)];
        RenderCurrent(saved, false);
      case FetchFailed =>
        var cached := StoredSnapshot(storage);
        if cached.Some? {
          RenderCurrent(cached.value, true);
        }
    }
  }

  /**
   * Two presses of each button restore both preferences and leave each stored
   * flag agreeing with its preference; when the stored flags already agreed,
   * storage as a whole is restored.
   */
  method TogglesCancel(page: Dashboard)
    modifies page
    ensures page.showFeelsLike == old(page.showFeelsLike)
    ensures ("dark" in page.classes) == old("dark" in page.classes)
    ensures page.storage == old(page.storage)[FeelsKey := Text(FlagText(old(page.showFeelsLike)))]
                                             [DarkKey := Text(FlagText(old("dark" in page.classes)))]
    ensures old(page.FeelsPersisted() && page.DarkPersisted()) ==> page.storage == old(page.storage)
  {
    page.ToggleFeels();
    page.ToggleFeels();
    page.ToggleDark();
    page.ToggleDark();
  }
}
