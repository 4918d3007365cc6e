/** The model adapter of predictor.py: one-hot encoding of the five
    categorical scenario fields, reindexing onto the classifier's fixed column
    list with 0 for missing columns, and the classifier's positive-class
    probability for each row, with the classifier as a parameter. */
module ModelAdapter {
  import opened FeatureBuilder

  /** A cell of the encoded table: a number (hour, weather, the 0 fill) or a
      boolean (the two flags and every indicator column). */
  datatype Value = Num(x: real) | Flag(b: bool)

  /** A probability in [0, 1]. */
  type Probability = p: real | 0.0 <= p <= 1.0

  /** The trained classifier's positive-class probability for one aligned row. */
  type Classifier = seq<Value> -> Probability

  /** The aligned table: its column names and its rows, one value per column. */
  datatype Frame = Frame(columns: seq<string>, rows: seq<seq<Value>>)

  /** A scenario row with its predicted probability. */
  datatype Scored = Scored(row: Scenario, probability: Probability)

  /** The scenario columns the encoding leaves as they are. */
  const NumericColumns: seq<string> := [
    "hour", "temperature_c", "wind_kph", "precipitation_mm", "cloud",
    "humidity", "pressure_mb", "is_holiday", "is_special_event"]

  /** The fields the encoding replaces by indicator columns. */
  const CategoricalColumns: seq<string> := [
    "food_item_name", "food_item_category", "day_of_the_week", "day_type", "order_type"]

  function NumericValue(r: Scenario, column: string): Value
    requires column in NumericColumns
  {
    match column
    case "hour" => Num(r.base.hour as real)
    case "temperature_c" => Num(r.base.temperatureC)
    case "wind_kph" => Num(r.base.windKph)
    case "precipitation_mm" => Num(r.base.precipitationMm)
    case "cloud" => Num(r.base.cloud)
    case "humidity" => Num(r.base.humidity)
    case "pressure_mb" => Num(r.base.pressureMb)
    case "is_holiday" => Flag(r.base.isHoliday)
    case _ => Flag(r.base.isSpecialEvent)
  }

  function CategoricalValue(r: Scenario, field: string): string
    requires field in CategoricalColumns
  {
    match field
    case "food_item_name" => r.base.foodItemName
    case "food_item_category" => r.base.foodItemCategory
    case "day_of_the_week" => r.base.dayOfTheWeek
    case "day_type" => r.base.dayType
    case _ => r.orderType
  }

  /** The name of the indicator column for `value` in `field`: the field,
      an underscore, and the value. */
  function DummyName(field: string, value: string): string
  {
    field + "_" + value
  }

  /** The indicator columns that are 1 in row r: one per categorical field. */
  function RowDummies(r: Scenario): set<string>
  {
    set f | f in CategoricalColumns :: DummyName(f, CategoricalValue(r, f))
  }

  /** The columns of the one-hot encoded table: the numeric columns,
      and an indicator for every value some row takes in a categorical field. */
  function EncodedColumns(rows: seq<Scenario>): set<string>
  {
    (set c | c in NumericColumns) + (set f, r | f in CategoricalColumns && r in rows :: DummyName(f, CategoricalValue(r, f)))
  }

  /** One row of the encoded table, column name to value: every row has the
      same columns, the numeric columns carry the row's values, and every
      indicator column holds a flag, set for the row's own values. */
  function EncodeRow(rows: seq<Scenario>, r: Scenario): (encoded: map<string, Value>)
    ensures encoded.Keys == EncodedColumns(rows)
    ensures forall c :: c in NumericColumns ==> encoded[c] == NumericValue(r, c)
    ensures forall c :: c in encoded && c !in NumericColumns ==> encoded[c].Flag?
    ensures forall f :: f in CategoricalColumns && r in rows ==>
      encoded[DummyName(f, CategoricalValue(r, f))] == Flag(true)
  {
    DummiesAreNotNumeric();
    map c | c in EncodedColumns(rows) :: if c in NumericColumns then NumericValue(r, c) else Flag(c in RowDummies(r))
  }

  /** The encoded table reindexed onto the model's columns, in the model's
      order: one row per scenario and one cell per model column, holding the
      encoded value where the encoding produced that column and 0 elsewhere. */
  function Align(rows: seq<Scenario>, modelColumns: seq<string>): (aligned: Frame)
    ensures aligned.columns == modelColumns
    ensures |aligned.rows| == |rows|
    ensures forall i :: 0 <= i < |rows| ==> |aligned.rows[i]| == |modelColumns|
    ensures forall i, j :: 0 <= i < |rows| && 0 <= j < |modelColumns| ==>
      aligned.rows[i][j] ==
        if modelColumns[j] in EncodedColumns(rows) then EncodeRow(rows, rows[i])[modelColumns[j]] else Num(0.0)
  {
    Frame(modelColumns, seq(|rows|, i requires 0 <= i < |rows| =>
      var encoded := EncodeRow(rows, rows[i]);
      seq(|modelColumns|, j requires 0 <= j < |modelColumns| =>
        if modelColumns[j] in encoded then encoded[modelColumns[j]] else Num(0.0))))
  }

  /** The classifier's positive-class probability for each aligned row, stored
      next to the scenario row it was computed from. */
  function Score(rows: seq<Scenario>, aligned: Frame, classify: Classifier): (scored: seq<Scored>)
    requires |aligned.rows| == |rows|
    ensures |scored| == |rows|
    ensures forall i :: 0 <= i < |rows| ==>
      scored[i].row == rows[i] && scored[i].probability == classify(aligned.rows[i])
  {
    seq(|rows|, i requires 0 <= i < |rows| => Scored(rows[i], classify(aligned.rows[i])))
  }

  // Column names never clash: the five indicator prefixes begin with 'f', 'd'
  // or 'o', and differ from one another within their common length; no
  // numeric column begins with those letters.

  lemma DummyNamePrefix(f: string, v: string, k: int)
    requires 0 <= k < |f|
    ensures DummyName(f, v)[k] == f[k]
  {
    assert DummyName(f, v) == f + ("_" + v);
  }

  lemma NumericIsNotDummy(c: string, f: string, v: string)
    requires c in NumericColumns && f in CategoricalColumns
    ensures c != DummyName(f, v)
  {
    DummyNamePrefix(f, v, 0);
  }

  lemma DummiesAreNotNumeric()
    ensures forall c, f, v :: c in NumericColumns && f in CategoricalColumns ==> c != DummyName(f, v)
  {
    forall c, f, v | c in NumericColumns && f in CategoricalColumns ensures c != DummyName(f, v) {
      NumericIsNotDummy(c, f, v);
    }
  }

  lemma {:induction false} DummyNameInjective(f: string, v: string, g: string, w: string)
    requires f in CategoricalColumns && g in CategoricalColumns
    requires DummyName(f, v) == DummyName(g, w)
    ensures f == g && v == w
  {
    if f != g {
      DummyNamePrefix(f, v, 0);
      DummyNamePrefix(g, w, 0);
      DummyNamePrefix(f, v, 4);
      DummyNamePrefix(g, w, 4);
      if f[0] == g[0] && f[4] == g[4] {
        DummyNamePrefix(f, v, 10);
        DummyNamePrefix(g, w, 10);
      }
      assert false;
    }
    var n := |f| + 1;
    assert DummyName(f, v)[n..] == v;
    assert DummyName(g, w)[n..] == w;
  }

  /** One-hot encoding: in every row, for every categorical field, the
      indicator of the row's own value is present and true, every other
      indicator of that field is false, and every numeric column keeps the
      row's value. */
  lemma OneHot(rows: seq<Scenario>, i: int, field: string)
    requires 0 <= i < |rows| && field in CategoricalColumns
    ensures var encoded := EncodeRow(rows, rows[i]);
      && DummyName(field, CategoricalValue(rows[i], field)) in encoded
      && encoded[DummyName(field, CategoricalValue(rows[i], field))] == Flag(true)
      && (forall v :: DummyName(field, v) in encoded && v != CategoricalValue(rows[i], field) ==>
            encoded[DummyName(field, v)] == Flag(false))
      && (forall c :: c in NumericColumns ==> c in encoded && encoded[c] == NumericValue(rows[i], c))
  {
    var r := rows[i];
    var encoded := EncodeRow(rows, r);
    var own := DummyName(field, CategoricalValue(r, field));
    assert r in rows;
    assert own in EncodedColumns(rows);
    forall c | c in NumericColumns ensures c != own {
      NumericIsNotDummy(c, field, CategoricalValue(r, field));
    }
    assert own in RowDummies(r);
    forall v | DummyName(field, v) in encoded && v != CategoricalValue(r, field)
      ensures encoded[DummyName(field, v)] == Flag(false)
    {
      forall c | c in NumericColumns ensures c != DummyName(field, v) {
        NumericIsNotDummy(c, field, v);
      }
      if DummyName(field, v) in RowDummies(r) {
        var g :| g in CategoricalColumns && DummyName(g, CategoricalValue(r, g)) == DummyName(field, v);
        DummyNameInjective(g, CategoricalValue(r, g), field, v);
      }
    }
  }

  /** Reindexing onto the model's columns, stated cell by cell: numeric
      columns carry the row's value; the indicator of a value some row takes is
      true exactly in the rows that take it; a column the encoding did not
      produce (neither numeric nor such an indicator) is 0. */
  lemma AlignCells(rows: seq<Scenario>, modelColumns: seq<string>, i: int, j: int)
    requires 0 <= i < |rows| && 0 <= j < |modelColumns|
    ensures var cell := Align(rows, modelColumns).rows[i][j];
      var c := modelColumns[j];
      && (c in NumericColumns ==> cell == NumericValue(rows[i], c))
      && (forall f, k :: f in CategoricalColumns && 0 <= k < |rows| && c == DummyName(f, CategoricalValue(rows[k], f)) ==>
            cell == Flag(CategoricalValue(rows[i], f) == CategoricalValue(rows[k], f)))
      && (c !in NumericColumns &&
          (forall f, k :: f in CategoricalColumns && 0 <= k < |rows| ==> c != DummyName(f, CategoricalValue(rows[k], f))) ==>
            cell == Num(0.0))
  {
    var c := modelColumns[j];
    if c in NumericColumns {
      AlignNumericCell(rows, modelColumns, i, j);
    } else {
      AlignFillCell(rows, modelColumns, i, j);
    }
    forall f, k | f in CategoricalColumns && 0 <= k < |rows| && c == DummyName(f, CategoricalValue(rows[k], f))
      ensures Align(rows, modelColumns).rows[i][j] == Flag(CategoricalValue(rows[i], f) == CategoricalValue(rows[k], f))
    {
      AlignIndicatorCell(rows, modelColumns, i, j, f, k);
    }
  }

  lemma AlignNumericCell(rows: seq<Scenario>, modelColumns: seq<string>, i: int, j: int)
    requires 0 <= i < |rows| && 0 <= j < |modelColumns| && modelColumns[j] in NumericColumns
    ensures Align(rows, modelColumns).rows[i][j] == NumericValue(rows[i], modelColumns[j])
  {
    assert modelColumns[j] in EncodedColumns(rows);
  }

  lemma AlignIndicatorCell(rows: seq<Scenario>, modelColumns: seq<string>, i: int, j: int, f: string, k: int)
    requires 0 <= i < |rows| && 0 <= j < |modelColumns| && 0 <= k < |rows| && f in CategoricalColumns
    requires modelColumns[j] == DummyName(f, CategoricalValue(rows[k], f))
    ensures Align(rows, modelColumns).rows[i][j] == Flag(CategoricalValue(rows[i], f) == CategoricalValue(rows[k], f))
  {
    var c := modelColumns[j];
    assert rows[k] in rows;
    assert c in EncodedColumns(rows);
    assert Align(rows, modelColumns).rows[i][j] == EncodeRow(rows, rows[i])[c];
    OneHot(rows, i, f);
  }

  lemma AlignFillCell(rows: seq<Scenario>, modelColumns: seq<string>, i: int, j: int)
    requires 0 <= i < |rows| && 0 <= j < |modelColumns| && modelColumns[j] !in NumericColumns
    ensures (forall f, k :: f in CategoricalColumns && 0 <= k < |rows| ==> modelColumns[j] != DummyName(f, CategoricalValue(rows[k], f))) ==>
      Align(rows, modelColumns).rows[i][j] == Num(0.0)
  {
    var c := modelColumns[j];
    if c in EncodedColumns(rows) {
      var f, r :| f in CategoricalColumns && r in rows && c == DummyName(f, CategoricalValue(r, f));
      var k :| 0 <= k < |rows| && rows[k] == r;
    }
  }
}
