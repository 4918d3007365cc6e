/** Feature building in `generate_predictions` (predictor.py): the distinct
    menu items, the day type, and the scenario table with one Dine In and one
    Take Away row per distinct (name, category) pair. */
module FeatureBuilder {
  import opened Sequences
  import opened Weather

  /** One (food_item_name, food_item_category) pair of the menu table. */
  datatype MenuItem = MenuItem(name: string, category: string)

  /** The request and calendar facts every scenario row shares. */
  datatype SharedContext = SharedContext(
    hour: int,
    dayOfWeek: string,
    dayType: string,
    weather: WeatherSlice,
    isHoliday: bool,
    isSpecialEvent: bool)

  /** A base scenario: every scenario field except the order type. */
  datatype BaseScenario = BaseScenario(
    hour: int,
    foodItemName: string,
    foodItemCategory: string,
    dayOfTheWeek: string,
    dayType: string,
    temperatureC: real,
    windKph: real,
    precipitationMm: real,
    cloud: real,
    humidity: real,
    pressureMb: real,
    isHoliday: bool,
    isSpecialEvent: bool)

  /** One row of the scenario table: a base scenario with an order type. */
  datatype Scenario = Scenario(base: BaseScenario, orderType: string)

  const DineIn: string := "Dine In"
  const TakeAway: string := "Take Away"
  const Weekend: string := "Weekend"
  const Weekday: string := "Weekday"

  /** 'Weekend' for Saturday and Sunday, 'Weekday' for every other name. */
  function DayType(dayOfWeek: string): (t: string)
    ensures t == Weekend <==> dayOfWeek == "Saturday" || dayOfWeek == "Sunday"
    ensures t == Weekend || t == Weekday
  {
    if dayOfWeek in ["Saturday", "Sunday"] then Weekend else Weekday
  }

  /** The distinct (name, category) pairs of the menu table, each at the
      position of its first occurrence relative to the others. */
  function UniqueItems(menu: seq<MenuItem>): (items: seq<MenuItem>)
    ensures Distinct(items)
    ensures forall m :: m in items <==> m in menu
    ensures forall i, j :: 0 <= i < j < |items| ==> IndexOf(menu, items[i]) < IndexOf(menu, items[j])
  {
    Dedup(menu)
  }

  function Base(item: MenuItem, ctx: SharedContext): BaseScenario
  {
    BaseScenario(
      ctx.hour, item.name, item.category, ctx.dayOfWeek, ctx.dayType,
      ctx.weather.tempC, ctx.weather.windKph, ctx.weather.precipMm,
      ctx.weather.cloud, ctx.weather.humidity, ctx.weather.pressureMb,
      ctx.isHoliday, ctx.isSpecialEvent)
  }

  /** The scenario list: for the i-th item, row 2i is Dine In and row 2i+1 is
      Take Away, and the two agree on every other field. */
  function Expand(items: seq<MenuItem>, ctx: SharedContext): (rows: seq<Scenario>)
    ensures |rows| == 2 * |items|
    ensures forall i :: 0 <= i < |items| ==>
      rows[2 * i] == Scenario(Base(items[i], ctx), DineIn) &&
      rows[2 * i + 1] == Scenario(Base(items[i], ctx), TakeAway)
  {
    if |items| == 0 then []
    else
      var b := Base(items[|items| - 1], ctx);
      Expand(items[..|items| - 1], ctx) + [Scenario(b, DineIn), Scenario(b, TakeAway)]
  }

  /** The loop of predictor.py that appends two dicts per unique item. */
  method BuildScenarios(uniqueItems: seq<MenuItem>, ctx: SharedContext) returns (scenarios: seq<Scenario>)
    ensures |scenarios| == 2 * |uniqueItems|
    ensures forall i :: 0 <= i < |uniqueItems| ==>
      scenarios[2 * i] == Scenario(Base(uniqueItems[i], ctx), DineIn) &&
      scenarios[2 * i + 1] == Scenario(Base(uniqueItems[i], ctx), TakeAway)
    ensures scenarios == Expand(uniqueItems, ctx)
  {
    scenarios := [];
    var k := 0;
    while k < |uniqueItems|
      invariant 0 <= k <= |uniqueItems|
      invariant scenarios == Expand(uniqueItems[..k], ctx)
    {
      var baseScenario := Base(uniqueItems[k], ctx);
      scenarios := scenarios + [Scenario(baseScenario, DineIn)];
      scenarios := scenarios + [Scenario(baseScenario, TakeAway)];
      assert uniqueItems[..k + 1][..k] == uniqueItems[..k];
      k := k + 1;
    }
    assert uniqueItems[..k] == uniqueItems;
  }

  /** Row p comes from item p / 2, with order type Dine In for even p and Take
      Away for odd p. */
  lemma ExpandRow(items: seq<MenuItem>, ctx: SharedContext, p: int)
    requires 0 <= p < 2 * |items|
    ensures Expand(items, ctx)[p].base == Base(items[p / 2], ctx)
    ensures Expand(items, ctx)[p].orderType == if p % 2 == 0 then DineIn else TakeAway
  {
    var rows := Expand(items, ctx);
    var i := p / 2;
    assert rows[2 * i] == Scenario(Base(items[i], ctx), DineIn);
  }

  /** Every row carries the request's hour, calendar facts, weather and flags,
      and the name and category of a menu item. */
  lemma ExpandSharedContext(items: seq<MenuItem>, ctx: SharedContext)
    ensures forall r :: r in Expand(items, ctx) ==>
      && r.base.hour == ctx.hour
      && r.base.dayOfTheWeek == ctx.dayOfWeek
      && r.base.dayType == ctx.dayType
      && r.base.temperatureC == ctx.weather.tempC
      && r.base.windKph == ctx.weather.windKph
      && r.base.precipitationMm == ctx.weather.precipMm
      && r.base.cloud == ctx.weather.cloud
      && r.base.humidity == ctx.weather.humidity
      && r.base.pressureMb == ctx.weather.pressureMb
      && r.base.isHoliday == ctx.isHoliday
      && r.base.isSpecialEvent == ctx.isSpecialEvent
      && MenuItem(r.base.foodItemName, r.base.foodItemCategory) in items
      && (r.orderType == DineIn || r.orderType == TakeAway)
  {
    var rows := Expand(items, ctx);
    forall r | r in rows
      ensures r.base == Base(items[IndexOf(rows, r) / 2], ctx)
      ensures r.orderType == DineIn || r.orderType == TakeAway
    {
      ExpandRow(items, ctx, IndexOf(rows, r));
    }
  }
}
