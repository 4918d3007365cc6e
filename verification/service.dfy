/** `generate_predictions` (predictor.py): parse the date, look up the
    weather, derive the calendar facts, build and score the scenarios,
    aggregate, and assemble the response envelope.

    The startup artifacts and outside collaborators form the `Context`: the
    menu table, the model's column list, the classifier, the calendar (date
    parsing, weekday names, holiday membership) and the forecast provider.
    The clock's reading `today` is a parameter. */
module PredictionService {
  import opened Wrappers
  import opened Sequences
  import opened Weather
  import opened FeatureBuilder
  import opened ModelAdapter
  import opened Aggregator

  /** Parsing a YYYY-MM-DD date into a day number, the English weekday name
      of a day, and membership in the holiday calendar. */
  datatype Calendar = Calendar(
    parseDate: string -> Option<int>,
    weekdayName: int -> string,
    isHoliday: int -> bool)

  datatype Context = Context(
    menu: seq<MenuItem>,
    modelColumns: seq<string>,
    classify: Classifier,
    calendar: Calendar,
    fetch: Fetcher)

  datatype Request = Request(targetDate: string, targetHour: int, isSpecialEvent: bool)

  datatype Metadata = Metadata(
    targetDate: string,
    targetHour: int,
    isSpecialEvent: bool,
    isPublicHoliday: bool,
    dayOfWeek: string)

  datatype Conditions = Conditions(temperatureC: real, precipitationMm: real, windKph: real, cloudPercent: real)

  datatype Envelope = Envelope(
    predictionMetadata: Metadata,
    weatherConditions: Conditions,
    overallPrediction: seq<OverallEntry>,
    detailedPrediction: seq<DetailedRow>)

  /** Exceptions the function does not catch. */
  datatype Fault =
    | EmptyScenarioTable       // get_dummies on a table without the categorical columns
    | PivotFailure(message: string)

  /** A returned error payload, the success envelope, or an exception
      that escapes to the caller. */
  datatype Response = ErrorPayload(error: string) | Prediction(envelope: Envelope) | Raised(fault: Fault)

  const InvalidDateMessage: string := "Invalid date format. Please use YYYY-MM-DD."

  /** The facts every scenario row of a request shares. */
  function RequestContext(ctx: Context, req: Request, date: int, weather: WeatherSlice): SharedContext
  {
    var dayOfWeek := ctx.calendar.weekdayName(date);
    SharedContext(req.targetHour, dayOfWeek, DayType(dayOfWeek), weather, ctx.calendar.isHoliday(date), req.isSpecialEvent)
  }

  /** The scenario rows with the classifier's probabilities. */
  function ScoredRows(ctx: Context, rows: seq<Scenario>): (scored: seq<Scored>)
    ensures |scored| == |rows|
    ensures forall i :: 0 <= i < |rows| ==>
      scored[i].row == rows[i] && scored[i].probability == ctx.classify(Align(rows, ctx.modelColumns).rows[i])
  {
    Score(rows, Align(rows, ctx.modelColumns), ctx.classify)
  }

  /** Steps 3 to 6 of `generate_predictions`, from the scenario rows on. */
  function Respond(ctx: Context, req: Request, date: int, weather: WeatherSlice, rows: seq<Scenario>): (r: Response)
    ensures !r.ErrorPayload?
    ensures r == Raised(EmptyScenarioTable) <==> |rows| == 0
    ensures r.Prediction? <==> |rows| > 0 && PivotKeysUnique(ScoredRows(ctx, rows))
    ensures r.Raised? && r.fault.PivotFailure? ==> r.fault.message == DuplicatePivotMessage
  {
    if |rows| == 0 then Raised(EmptyScenarioTable)
    else
      var scored := ScoredRows(ctx, rows);
      match Pivot(scored)
      case Err(msg) => Raised(PivotFailure(msg))
      case Ok(detailed) =>
        Prediction(Envelope(
          Metadata(req.targetDate, req.targetHour, req.isSpecialEvent,
                   ctx.calendar.isHoliday(date), ctx.calendar.weekdayName(date)),
          Conditions(weather.tempC, weather.precipMm, weather.windKph, weather.cloud),
          Overall(scored),
          detailed))
  }

  /** `generate_predictions`: a date that does not parse gets the format
      error; a failed lookup's message is returned as it is; an error payload
      comes back in those two cases only. */
  function Predict(ctx: Context, req: Request, today: int): (r: Response)
    ensures ctx.calendar.parseDate(req.targetDate).None? ==> r == ErrorPayload(InvalidDateMessage)
    ensures ctx.calendar.parseDate(req.targetDate).Some? ==>
      var lookup := HourlyForecast(ctx.calendar.parseDate(req.targetDate).value, req.targetHour, today, ctx.fetch);
      lookup.Err? ==> r == ErrorPayload(lookup.error)
    ensures r.ErrorPayload? <==>
      ctx.calendar.parseDate(req.targetDate).None? ||
      HourlyForecast(ctx.calendar.parseDate(req.targetDate).value, req.targetHour, today, ctx.fetch).Err?
  {
    match ctx.calendar.parseDate(req.targetDate)
    case None => ErrorPayload(InvalidDateMessage)
    case Some(date) =>
      match HourlyForecast(date, req.targetHour, today, ctx.fetch)
      case Err(msg) => ErrorPayload(msg)
      case Ok(weather) =>
        var rows := Expand(UniqueItems(ctx.menu), RequestContext(ctx, req, date, weather));
        Respond(ctx, req, date, weather, rows)
  }

  /** The same steps in the source's order, building the scenarios with its loop. */
  method GeneratePredictions(ctx: Context, req: Request, today: int) returns (response: Response)
    ensures response == Predict(ctx, req, today)
  {
    var parsed := ctx.calendar.parseDate(req.targetDate);
    if parsed.None? {
      return ErrorPayload(InvalidDateMessage);
    }
    var date := parsed.value;
    var weatherData := HourlyForecast(date, req.targetHour, today, ctx.fetch);
    if weatherData.Err? {
      return ErrorPayload(weatherData.error);
    }
    var uniqueItems := UniqueItems(ctx.menu);
    var scenarios := BuildScenarios(uniqueItems, RequestContext(ctx, req, date, weatherData.value));
    response := Respond(ctx, req, date, weatherData.value, scenarios);
  }

  /** A date that does not parse is answered with the format error, whatever
      the clock and the provider: no lookup happens. */
  lemma InvalidDateFirst(ctx: Context, req: Request, today: int, otherToday: int, otherFetch: Fetcher)
    requires ctx.calendar.parseDate(req.targetDate).None?
    ensures Predict(ctx.(fetch := otherFetch), req, otherToday) == Predict(ctx, req, today)
  {
  }

  /** A parsed date outside today .. today + 13 is refused with the window
      message before the provider, the menu or the model is consulted. */
  lemma OutOfWindowRefused(ctx: Context, req: Request, today: int, other: Context)
    requires ctx.calendar.parseDate(req.targetDate).Some?
    requires var date := ctx.calendar.parseDate(req.targetDate).value; date < today || date > today + 13
    requires other.calendar == ctx.calendar
    ensures Predict(ctx, req, today) == ErrorPayload(OutOfWindowMessage)
    ensures Predict(other, req, today) == Predict(ctx, req, today)
  {
  }

  /** No two distinct menu items share a name. */
  ghost predicate NamesDistinct(items: seq<MenuItem>)
  {
    forall i, j :: 0 <= i < j < |items| ==> items[i].name != items[j].name
  }

  /** The scored scenario rows have unique (name, order type) pairs exactly
      when no name appears under two categories. */
  lemma {:induction false} PivotKeysUniqueIffNamesDistinct(items: seq<MenuItem>, shared: SharedContext, scored: seq<Scored>)
    requires |scored| == 2 * |items|
    requires forall p :: 0 <= p < |scored| ==> scored[p].row == Expand(items, shared)[p]
    ensures PivotKeysUnique(scored) <==> NamesDistinct(items)
  {
    if PivotKeysUnique(scored) {
      forall i, j | 0 <= i < j < |items| ensures items[i].name != items[j].name {
        ExpandRow(items, shared, 2 * i);
        ExpandRow(items, shared, 2 * j);
        assert !SameCell(scored[2 * i], scored[2 * j]);
      }
    }
    if NamesDistinct(items) {
      forall p, q | 0 <= p < q < |scored| ensures !SameCell(scored[p], scored[q]) {
        ExpandRow(items, shared, p);
        ExpandRow(items, shared, q);
        if p / 2 == q / 2 {
          assert p % 2 != q % 2;
        }
      }
    }
  }

  /** With a parsed in-window date and a successful lookup, an empty menu
      raises, a name listed under two categories makes the pivot raise, and
      otherwise a prediction comes back. */
  lemma FaultsExactly(ctx: Context, req: Request, today: int)
    requires ctx.calendar.parseDate(req.targetDate).Some?
    requires HourlyForecast(ctx.calendar.parseDate(req.targetDate).value, req.targetHour, today, ctx.fetch).Ok?
    ensures Predict(ctx, req, today) == Raised(EmptyScenarioTable) <==> |ctx.menu| == 0
    ensures |ctx.menu| > 0 ==>
      (Predict(ctx, req, today) == Raised(PivotFailure(DuplicatePivotMessage)) <==> !NamesDistinct(UniqueItems(ctx.menu)))
    ensures Predict(ctx, req, today).Prediction? <==> |ctx.menu| > 0 && NamesDistinct(UniqueItems(ctx.menu))
  {
    var date := ctx.calendar.parseDate(req.targetDate).value;
    var weather := HourlyForecast(date, req.targetHour, today, ctx.fetch).value;
    var items := UniqueItems(ctx.menu);
    var shared := RequestContext(ctx, req, date, weather);
    var rows := Expand(items, shared);
    if |ctx.menu| > 0 {
      assert ctx.menu[0] in items;
      PivotKeysUniqueIffNamesDistinct(items, shared, ScoredRows(ctx, rows));
    }
  }

  /** The names of a list of menu items, in order. */
  function ItemNames(items: seq<MenuItem>): (names: seq<string>)
    ensures |names| == |items|
    ensures forall i :: 0 <= i < |items| ==> names[i] == items[i].name
  {
    seq(|items|, i requires 0 <= i < |items| => items[i].name)
  }

  /** The name of scored row p has both a Dine In and a Take Away row. */
  lemma ExpandedRowHasBothCells(items: seq<MenuItem>, shared: SharedContext, scored: seq<Scored>, p: int)
    requires |scored| == 2 * |items|
    requires forall q :: 0 <= q < |scored| ==> scored[q].row == Expand(items, shared)[q]
    requires 0 <= p < |scored|
    ensures HasCell(scored, NameOf(scored[p]), DineIn) && HasCell(scored, NameOf(scored[p]), TakeAway)
  {
    var d, t := p / 2 * 2, p / 2 * 2 + 1;
    ExpandRow(items, shared, p);
    ExpandRow(items, shared, d);
    ExpandRow(items, shared, t);
    assert scored[p].row == Expand(items, shared)[p];
    assert scored[d].row == Expand(items, shared)[d];
    assert scored[t].row == Expand(items, shared)[t];
  }

  /** In the scored rows of an expansion only the two order types occur, and
      every row's name has both. */
  lemma ExpandedRowsComplete(items: seq<MenuItem>, shared: SharedContext, scored: seq<Scored>)
    requires |scored| == 2 * |items|
    requires forall p :: 0 <= p < |scored| ==> scored[p].row == Expand(items, shared)[p]
    ensures forall i :: 0 <= i < |scored| ==> scored[i].row.orderType == DineIn || scored[i].row.orderType == TakeAway
    ensures forall i :: 0 <= i < |scored| ==>
      HasCell(scored, NameOf(scored[i]), DineIn) && HasCell(scored, NameOf(scored[i]), TakeAway)
  {
    forall p | 0 <= p < |scored|
      ensures scored[p].row.orderType == DineIn || scored[p].row.orderType == TakeAway
    {
      ExpandRow(items, shared, p);
    }
    forall p | 0 <= p < |scored|
      ensures HasCell(scored, NameOf(scored[p]), DineIn) && HasCell(scored, NameOf(scored[p]), TakeAway)
    {
      ExpandedRowHasBothCells(items, shared, scored, p);
    }
  }

  /** The names in the scored rows of an expansion are those of the items. */
  lemma ExpandedNames(items: seq<MenuItem>, shared: SharedContext, scored: seq<Scored>)
    requires |scored| == 2 * |items|
    requires forall p :: 0 <= p < |scored| ==> scored[p].row == Expand(items, shared)[p]
    ensures forall n :: n in Names(scored) <==> n in ItemNames(items)
  {
    forall n | n in ItemNames(items) ensures n in Names(scored) {
      ItemNameIsRowName(items, shared, scored, n);
    }
    forall n | n in Names(scored) ensures n in ItemNames(items) {
      RowNameIsItemName(items, shared, scored, n);
    }
  }

  lemma ItemNameIsRowName(items: seq<MenuItem>, shared: SharedContext, scored: seq<Scored>, n: string)
    requires |scored| == 2 * |items|
    requires forall p :: 0 <= p < |scored| ==> scored[p].row == Expand(items, shared)[p]
    requires n in ItemNames(items)
    ensures n in Names(scored)
  {
    var i :| 0 <= i < |items| && ItemNames(items)[i] == n;
    ExpandRow(items, shared, 2 * i);
    assert scored[2 * i].row == Expand(items, shared)[2 * i];
    assert Names(scored)[2 * i] == n;
  }

  lemma RowNameIsItemName(items: seq<MenuItem>, shared: SharedContext, scored: seq<Scored>, n: string)
    requires |scored| == 2 * |items|
    requires forall p :: 0 <= p < |scored| ==> scored[p].row == Expand(items, shared)[p]
    requires n in Names(scored)
    ensures n in ItemNames(items)
  {
    var p :| 0 <= p < |scored| && Names(scored)[p] == n;
    ExpandRow(items, shared, p);
    assert scored[p].row == Expand(items, shared)[p];
    assert ItemNames(items)[p / 2] == n;
  }

  /** The menu and its distinct items have the same names. */
  lemma UniqueItemNames(menu: seq<MenuItem>)
    ensures forall n :: n in ItemNames(UniqueItems(menu)) <==> n in ItemNames(menu)
  {
    var items := UniqueItems(menu);
    forall n ensures n in ItemNames(items) <==> n in ItemNames(menu) {
      if n in ItemNames(menu) {
        var i :| 0 <= i < |menu| && ItemNames(menu)[i] == n;
        assert menu[i] in items;
        var j :| 0 <= j < |items| && items[j] == menu[i];
        assert ItemNames(items)[j] == n;
      }
      if n in ItemNames(items) {
        var j :| 0 <= j < |items| && ItemNames(items)[j] == n;
        assert items[j] in menu;
        var i :| 0 <= i < |menu| && menu[i] == items[j];
        assert ItemNames(menu)[i] == n;
      }
    }
  }

  /** A prediction's envelope is the aggregation of the request's scored
      scenario rows, whose (name, order type) pairs are unique. */
  lemma PredictionFromRows(ctx: Context, req: Request, today: int)
    requires Predict(ctx, req, today).Prediction?
    ensures var date := ctx.calendar.parseDate(req.targetDate).value;
      var weather := HourlyForecast(date, req.targetHour, today, ctx.fetch).value;
      var items := UniqueItems(ctx.menu);
      var shared := RequestContext(ctx, req, date, weather);
      var scored := ScoredRows(ctx, Expand(items, shared));
      var env := Predict(ctx, req, today).envelope;
      && NamesDistinct(items)
      && PivotKeysUnique(scored)
      && env.overallPrediction == Overall(scored)
      && env.detailedPrediction == Pivot(scored).value
      && env.predictionMetadata ==
           Metadata(req.targetDate, req.targetHour, req.isSpecialEvent,
                    ctx.calendar.isHoliday(date), ctx.calendar.weekdayName(date))
      && env.weatherConditions == Conditions(weather.tempC, weather.precipMm, weather.windKph, weather.cloud)
  {
    FaultsExactly(ctx, req, today);
    var date := ctx.calendar.parseDate(req.targetDate).value;
    var weather := HourlyForecast(date, req.targetHour, today, ctx.fetch).value;
    var items := UniqueItems(ctx.menu);
    var shared := RequestContext(ctx, req, date, weather);
    PivotKeysUniqueIffNamesDistinct(items, shared, ScoredRows(ctx, Expand(items, shared)));
  }

  /** A prediction has one overall entry and one detailed row per distinct
      menu item, named after the menu's items, and its metadata echoes the
      request and the calendar facts. */
  lemma PredictionShape(ctx: Context, req: Request, today: int, env: Envelope)
    requires Predict(ctx, req, today) == Prediction(env)
    ensures var date := ctx.calendar.parseDate(req.targetDate).value;
      && |env.overallPrediction| == |UniqueItems(ctx.menu)|
      && |env.detailedPrediction| == |UniqueItems(ctx.menu)|
      && (forall n :: n in OverallNames(env.overallPrediction) <==> n in ItemNames(ctx.menu))
      && (forall n :: n in DetailedNames(env.detailedPrediction) <==> n in ItemNames(ctx.menu))
      && env.predictionMetadata ==
           Metadata(req.targetDate, req.targetHour, req.isSpecialEvent,
                    ctx.calendar.isHoliday(date), ctx.calendar.weekdayName(date))
  {
    PredictionFromRows(ctx, req, today);
    var date := ctx.calendar.parseDate(req.targetDate).value;
    var weather := HourlyForecast(date, req.targetHour, today, ctx.fetch).value;
    var items := UniqueItems(ctx.menu);
    var shared := RequestContext(ctx, req, date, weather);
    var scored := ScoredRows(ctx, Expand(items, shared));
    ExpandedNames(items, shared, scored);
    UniqueItemNames(ctx.menu);
    OverallOnePerName(scored);
    PivotRows(scored);
    assert Distinct(ItemNames(items));
    DistinctSameElements(GroupKeys(scored), ItemNames(items));
  }

  /** A prediction's overall entries are in non-increasing order of
      probability and are, as a multiset, the means of each detailed row's
      Dine In and Take Away probabilities. */
  lemma PredictionRanking(ctx: Context, req: Request, today: int, env: Envelope)
    requires Predict(ctx, req, today) == Prediction(env)
    ensures var overall, detailed := env.overallPrediction, env.detailedPrediction;
      && (forall i, j :: 0 <= i <= j < |overall| ==> overall[i].probability >= overall[j].probability)
      && multiset(overall) == multiset(seq(|detailed|, m requires 0 <= m < |detailed| =>
           OverallEntry(detailed[m].foodItemName, (detailed[m].dineIn + detailed[m].takeAway) / 2.0)))
  {
    PredictionFromRows(ctx, req, today);
    var date := ctx.calendar.parseDate(req.targetDate).value;
    var weather := HourlyForecast(date, req.targetHour, today, ctx.fetch).value;
    var items := UniqueItems(ctx.menu);
    var shared := RequestContext(ctx, req, date, weather);
    ExpandedRanking(items, shared, ScoredRows(ctx, Expand(items, shared)));
  }

  /** The ranking and the breakdown of an expansion's scored rows agree: the
      ranking is non-increasing and holds each detailed row's two-cell mean. */
  lemma ExpandedRanking(items: seq<MenuItem>, shared: SharedContext, scored: seq<Scored>)
    requires |scored| == 2 * |items|
    requires forall p :: 0 <= p < |scored| ==> scored[p].row == Expand(items, shared)[p]
    requires PivotKeysUnique(scored)
    ensures var overall, detailed := Overall(scored), Pivot(scored).value;
      && (forall i, j :: 0 <= i <= j < |overall| ==> overall[i].probability >= overall[j].probability)
      && multiset(overall) == multiset(seq(|detailed|, m requires 0 <= m < |detailed| =>
           OverallEntry(detailed[m].foodItemName, (detailed[m].dineIn + detailed[m].takeAway) / 2.0)))
  {
    ExpandedRowsComplete(items, shared, scored);
    OverallIsMeanOfBreakdown(scored);
  }
}
