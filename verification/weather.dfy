/** The forecast lookup of predictor.py (`get_hourly_weather_forecast`): a
    window check on whole days, then one call to the forecast provider whose
    last forecast day is indexed by the requested hour.

    Dates are day numbers (`today` is the clock's reading on the same scale).
    The provider call, with its JSON navigation, is the `Fetcher` parameter. */
module Weather {
  import opened Wrappers

  /** One hour of forecast: the six fields the predictor reads. */
  datatype WeatherSlice = WeatherSlice(
    tempC: real,
    windKph: real,
    precipMm: real,
    cloud: real,
    humidity: real,
    pressureMb: real)

  /** The provider, queried for (location, days): either the hourly list of the
      last forecast day, or the text of the exception raised on the way
      (transport failure, bad status, missing JSON key). */
  type Fetcher = (string, int) -> Result<seq<WeatherSlice>, string>

  const RestaurantLocation: string := "Tamil Nadu"
  const MaxForecastDays: int := 14
  const OutOfWindowMessage: string := "Date must be within the next 14 days."
  const UpstreamPrefix: string := "API or data parsing error: "
  /** Python's message for an IndexError on a list. */
  const ListIndexMessage: string := "list index out of range"

  /** The number of forecast days to request, or None when the target lies
      outside the window: the target date itself through 13 days ahead. */
  function ForecastDays(targetDate: int, today: int): (days: Option<int>)
    ensures days.Some? <==> today <= targetDate <= today + 13
    ensures days.Some? ==> 1 <= days.value <= MaxForecastDays && days.value == targetDate - today + 1
  {
    var days := (targetDate - today) + 1;
    if !(0 < days <= MaxForecastDays) then None else Some(days)
  }

  /** Python's `xs[k]` on a list of length n: negative k counts from the end. */
  function PyIndex(n: nat, k: int): (i: Option<nat>)
    ensures i.Some? <==> -(n as int) <= k < n
    ensures i.Some? ==> i.value < n && (if k >= 0 then i.value == k else i.value == n + k)
  {
    if 0 <= k < n then Some(k)
    else if -(n as int) <= k < 0 then Some(n + k)
    else None
  }

  /** `get_hourly_weather_forecast`: the slice, or the error text the predictor
      would return under the "error" key. */
  function HourlyForecast(targetDate: int, targetHour: int, today: int, fetch: Fetcher): (r: Result<WeatherSlice, string>)
    ensures !(today <= targetDate <= today + 13) ==> r == Err(OutOfWindowMessage)
    ensures r.Ok? ==>
      var answer := fetch(RestaurantLocation, targetDate - today + 1);
      today <= targetDate <= today + 13 && answer.Ok? && r.value in answer.value
  {
    match ForecastDays(targetDate, today)
    case None => Err(OutOfWindowMessage)
    case Some(days) =>
      match fetch(RestaurantLocation, days)
      case Err(e) => Err(UpstreamPrefix + e)
      case Ok(hourly) =>
        match PyIndex(|hourly|, targetHour)
        case None => Err(UpstreamPrefix + ListIndexMessage)
        case Some(i) => Ok(hourly[i])
  }

  /** Inside the window the result is exactly what the provider's answer for
      that many days gives: an error prefixed with the parsing-error text, or
      the slice at the requested hour. */
  lemma InWindowLookup(targetDate: int, targetHour: int, today: int, fetch: Fetcher)
    requires today <= targetDate <= today + 13
    ensures var answer := fetch(RestaurantLocation, targetDate - today + 1);
      HourlyForecast(targetDate, targetHour, today, fetch) ==
        if answer.Err? then Err(UpstreamPrefix + answer.error)
        else if 0 <= targetHour < |answer.value| then Ok(answer.value[targetHour])
        else if -|answer.value| <= targetHour < 0 then Ok(answer.value[|answer.value| + targetHour])
        else Err(UpstreamPrefix + ListIndexMessage)
  {
  }

  /** The lookup fails with the out-of-window message only for out-of-window
      targets; every other failure carries the parsing-error prefix. */
  lemma LookupErrors(targetDate: int, targetHour: int, today: int, fetch: Fetcher)
    requires HourlyForecast(targetDate, targetHour, today, fetch).Err?
    ensures var msg := HourlyForecast(targetDate, targetHour, today, fetch).error;
      (today <= targetDate <= today + 13) <==> (|msg| >= |UpstreamPrefix| && msg[..|UpstreamPrefix|] == UpstreamPrefix)
  {
    var msg := HourlyForecast(targetDate, targetHour, today, fetch).error;
    if !(today <= targetDate <= today + 13) {
      assert msg == OutOfWindowMessage;
      assert msg[0] != UpstreamPrefix[0];
    }
  }
}
