/** Aggregation in predictor.py: the overall ranking (the mean probability
    of each item name, sorted from highest to lowest) and the detailed
    breakdown (one row per item name, one column per order type, absent
    combinations filled with 0). Probabilities stay numbers; the percentage
    strings are not modelled. */
module Aggregator {
  import opened Wrappers
  import opened Sequences
  import opened FeatureBuilder
  import opened ModelAdapter

  datatype OverallEntry = OverallEntry(foodItemName: string, probability: real)

  datatype DetailedRow = DetailedRow(foodItemName: string, dineIn: real, takeAway: real)

  /** pandas' message when a pivot meets the same (index, column) pair twice. */
  const DuplicatePivotMessage: string := "Index contains duplicate entries, cannot reshape"

  function NameOf(s: Scored): string
  {
    s.row.base.foodItemName
  }

  function Names(scored: seq<Scored>): (names: seq<string>)
    ensures |names| == |scored|
    ensures forall i :: 0 <= i < |scored| ==> names[i] == NameOf(scored[i])
  {
    seq(|scored|, i requires 0 <= i < |scored| => NameOf(scored[i]))
  }

  /** The groups of the rows by item name: each name once, strictly
      ascending. */
  function GroupKeys(scored: seq<Scored>): (keys: seq<string>)
    ensures Distinct(keys)
    ensures SortedBy(keys, StrLeq)
    ensures forall i :: 0 < i < |keys| ==> !StrLeq(keys[i], keys[i - 1])
    ensures forall n :: n in keys <==> n in Names(scored)
  {
    var names := Dedup(Names(scored));
    SortStrings(names);
    SortBy(names, StrLeq)
  }

  /** The probability column of the group of `name`, in row order. */
  function ProbabilitiesOf(scored: seq<Scored>, name: string): (ps: seq<real>)
    ensures |ps| <= |scored|
    ensures |ps| > 0 <==> name in Names(scored)
    ensures forall k :: 0 <= k < |ps| ==> 0.0 <= ps[k] <= 1.0
  {
    if |scored| == 0 then []
    else
      var rest := ProbabilitiesOf(scored[1..], name);
      assert Names(scored) == [NameOf(scored[0])] + Names(scored[1..]);
      (if NameOf(scored[0]) == name then [scored[0].probability as real] else []) + rest
  }

  function Sum(xs: seq<real>): real
  {
    if |xs| == 0 then 0.0 else xs[0] + Sum(xs[1..])
  }

  function Mean(xs: seq<real>): real
    requires |xs| > 0
  {
    Sum(xs) / (|xs| as real)
  }

  /** The mean of values in [0, 1] lies in [0, 1]. */
  lemma {:induction false} SumBounds(xs: seq<real>)
    requires forall k :: 0 <= k < |xs| ==> 0.0 <= xs[k] <= 1.0
    ensures 0.0 <= Sum(xs) <= |xs| as real
  {
    if |xs| > 0 {
      SumBounds(xs[1..]);
    }
  }

  lemma MeanBounds(xs: seq<real>)
    requires |xs| > 0
    requires forall k :: 0 <= k < |xs| ==> 0.0 <= xs[k] <= 1.0
    ensures 0.0 <= Mean(xs) <= 1.0
  {
    SumBounds(xs);
  }

  /** The mean probability of each group, in key order. */
  function GroupMeans(scored: seq<Scored>): (groups: seq<OverallEntry>)
    ensures |groups| == |GroupKeys(scored)|
    ensures forall m :: 0 <= m < |groups| ==> groups[m].foodItemName == GroupKeys(scored)[m]
  {
    var keys := GroupKeys(scored);
    seq(|keys|, m requires 0 <= m < |keys| =>
      assert keys[m] in keys;
      OverallEntry(keys[m], Mean(ProbabilitiesOf(scored, keys[m]))))
  }

  predicate HigherOrEqual(a: OverallEntry, b: OverallEntry)
  {
    a.probability >= b.probability
  }

  /** The overall ranking: the group means, reordered so that probabilities
      never increase. Among equal probabilities the model keeps the
      name-ascending group order, which the source does not promise. */
  function Overall(scored: seq<Scored>): (overall: seq<OverallEntry>)
    ensures multiset(overall) == multiset(GroupMeans(scored))
    ensures forall i, j :: 0 <= i <= j < |overall| ==> overall[i].probability >= overall[j].probability
  {
    var groups := GroupMeans(scored);
    assert Total(HigherOrEqual);
    SortBySorted(groups, HigherOrEqual);
    AdjacentToPairwise(SortBy(groups, HigherOrEqual));
    SortBy(groups, HigherOrEqual)
  }

  lemma {:induction false} AdjacentToPairwise(s: seq<OverallEntry>)
    requires SortedBy(s, HigherOrEqual)
    ensures forall i, j :: 0 <= i <= j < |s| ==> s[i].probability >= s[j].probability
  {
    if |s| > 1 {
      var t := s[1..];
      AdjacentToPairwise(t);
      forall j | 1 <= j < |s| ensures s[0].probability >= s[j].probability {
        assert s[1] == t[0] && s[j] == t[j - 1];
      }
      forall i, j | 1 <= i <= j < |s| ensures s[i].probability >= s[j].probability {
        assert s[i] == t[i - 1] && s[j] == t[j - 1];
      }
    }
  }

  function OverallNames(overall: seq<OverallEntry>): set<string>
  {
    set e | e in overall :: e.foodItemName
  }

  /** Every ranking entry is a group mean, and every group mean is ranked. */
  lemma OverallPermutesGroups(scored: seq<Scored>)
    ensures forall e :: e in Overall(scored) <==> e in GroupMeans(scored)
  {
    var overall, groups := Overall(scored), GroupMeans(scored);
    forall e ensures e in overall <==> e in groups {
      assert e in overall <==> e in multiset(overall);
      assert e in groups <==> e in multiset(groups);
    }
  }

  /** The ranking has one entry per distinct item name: no name twice, and
      exactly the names of the rows. */
  lemma OverallOnePerName(scored: seq<Scored>)
    ensures var overall := Overall(scored);
      && |overall| == |GroupKeys(scored)|
      && (forall i, j :: 0 <= i < j < |overall| ==> overall[i].foodItemName != overall[j].foodItemName)
      && (forall n :: n in OverallNames(overall) <==> n in Names(scored))
  {
    var groups, keys, overall := GroupMeans(scored), GroupKeys(scored), Overall(scored);
    var name := (e: OverallEntry) => e.foodItemName;
    assert DistinctBy(groups, name) by {
      forall i, j | 0 <= i < j < |groups| ensures name(groups[i]) != name(groups[j]) {
        assert name(groups[i]) == keys[i] && name(groups[j]) == keys[j];
      }
    }
    SortByDistinctBy(groups, HigherOrEqual, name);
    assert |overall| == |groups| by {
      assert |multiset(overall)| == |multiset(groups)|;
    }
    forall i, j | 0 <= i < j < |overall| ensures overall[i].foodItemName != overall[j].foodItemName {
      assert name(overall[i]) != name(overall[j]);
    }
    OverallNameSet(scored);
  }

  /** The ranking's names are exactly the rows' names. */
  lemma OverallNameSet(scored: seq<Scored>)
    ensures forall n :: n in OverallNames(Overall(scored)) <==> n in Names(scored)
  {
    OverallPermutesGroups(scored);
    forall n ensures n in OverallNames(Overall(scored)) ==> n in Names(scored) {
      if n in OverallNames(Overall(scored)) {
        OverallNameIsRowName(scored, n);
      }
    }
    forall n ensures n in Names(scored) ==> n in OverallNames(Overall(scored)) {
      if n in Names(scored) {
        RowNameIsOverallName(scored, n);
      }
    }
  }

  lemma OverallNameIsRowName(scored: seq<Scored>, n: string)
    requires forall e :: e in Overall(scored) <==> e in GroupMeans(scored)
    requires n in OverallNames(Overall(scored))
    ensures n in Names(scored)
  {
    var groups := GroupMeans(scored);
    var e :| e in Overall(scored) && e.foodItemName == n;
    assert e in groups;
    var m :| 0 <= m < |groups| && groups[m] == e;
    KeyIsRowName(scored, m);
  }

  lemma KeyIsRowName(scored: seq<Scored>, m: int)
    requires 0 <= m < |GroupMeans(scored)|
    ensures GroupMeans(scored)[m].foodItemName in Names(scored)
  {
    assert GroupKeys(scored)[m] in GroupKeys(scored);
  }

  lemma RowNameIsOverallName(scored: seq<Scored>, n: string)
    requires forall e :: e in Overall(scored) <==> e in GroupMeans(scored)
    requires n in Names(scored)
    ensures n in OverallNames(Overall(scored))
  {
    var groups, keys := GroupMeans(scored), GroupKeys(scored);
    assert n in keys;
    var m :| 0 <= m < |keys| && keys[m] == n;
    assert groups[m].foodItemName == n;
    assert groups[m] in Overall(scored);
  }

  /** Each entry's probability is the mean of its name's row probabilities,
      and so lies within [0, 1]. */
  lemma OverallMeans(scored: seq<Scored>)
    ensures var overall := Overall(scored);
      forall k :: 0 <= k < |overall| ==>
        var ps := ProbabilitiesOf(scored, overall[k].foodItemName);
        |ps| > 0 && overall[k].probability == Mean(ps) && 0.0 <= overall[k].probability <= 1.0
  {
    var groups, keys, overall := GroupMeans(scored), GroupKeys(scored), Overall(scored);
    OverallPermutesGroups(scored);
    forall k | 0 <= k < |overall|
      ensures var ps := ProbabilitiesOf(scored, overall[k].foodItemName);
        |ps| > 0 && overall[k].probability == Mean(ps) && 0.0 <= overall[k].probability <= 1.0
    {
      assert overall[k] in groups;
      var m :| 0 <= m < |groups| && groups[m] == overall[k];
      assert keys[m] in keys;
      MeanBounds(ProbabilitiesOf(scored, keys[m]));
    }
  }

  /** The key of a pivot cell: the row's name and its order type. */
  predicate SameCell(a: Scored, b: Scored)
  {
    NameOf(a) == NameOf(b) && a.row.orderType == b.row.orderType
  }

  /** The pivot succeeds only when no (name, order type) pair occurs twice. */
  predicate PivotKeysUnique(scored: seq<Scored>)
  {
    forall i, j :: 0 <= i < j < |scored| ==> !SameCell(scored[i], scored[j])
  }

  /** The pivot cell for (name, orderType), 0 where no row has that pair. */
  function Cell(scored: seq<Scored>, name: string, orderType: string): real
  {
    if |scored| == 0 then 0.0
    else if NameOf(scored[0]) == name && scored[0].row.orderType == orderType then scored[0].probability
    else Cell(scored[1..], name, orderType)
  }

  /** Some row has this name and order type. */
  predicate HasCell(scored: seq<Scored>, name: string, orderType: string)
  {
    exists i :: 0 <= i < |scored| && NameOf(scored[i]) == name && scored[i].row.orderType == orderType
  }

  lemma {:induction false} CellValue(scored: seq<Scored>, name: string, orderType: string)
    requires PivotKeysUnique(scored)
    ensures forall i :: 0 <= i < |scored| && NameOf(scored[i]) == name && scored[i].row.orderType == orderType ==>
      Cell(scored, name, orderType) == scored[i].probability
    ensures !HasCell(scored, name, orderType) ==> Cell(scored, name, orderType) == 0.0
  {
    if |scored| > 0 {
      assert PivotKeysUnique(scored[1..]) by {
        forall i, j | 0 <= i < j < |scored| - 1 ensures !SameCell(scored[1..][i], scored[1..][j]) {
          assert scored[1..][i] == scored[i + 1] && scored[1..][j] == scored[j + 1];
        }
      }
      CellValue(scored[1..], name, orderType);
      forall i | 1 <= i < |scored| ensures scored[i] == scored[1..][i - 1] { }
    }
  }

  /** The detailed rows, one per group key, in key order. */
  function Detailed(scored: seq<Scored>): (rows: seq<DetailedRow>)
    ensures |rows| == |GroupKeys(scored)|
    ensures forall m :: 0 <= m < |rows| ==> rows[m].foodItemName == GroupKeys(scored)[m]
  {
    var keys := GroupKeys(scored);
    seq(|keys|, m requires 0 <= m < |keys| =>
      DetailedRow(keys[m], Cell(scored, keys[m], DineIn), Cell(scored, keys[m], TakeAway)))
  }

  /** The breakdown by name and order type, with absent combinations 0: it
      fails, with pandas' duplicate-entries message, exactly when a (name,
      order type) pair occurs twice, and otherwise has one row per group key,
      in key order. */
  function Pivot(scored: seq<Scored>): (r: Result<seq<DetailedRow>, string>)
    ensures r.Ok? <==> PivotKeysUnique(scored)
    ensures r.Err? ==> r.error == DuplicatePivotMessage
    ensures r.Ok? ==> |r.value| == |GroupKeys(scored)|
    ensures r.Ok? ==> forall m :: 0 <= m < |r.value| ==> r.value[m].foodItemName == GroupKeys(scored)[m]
  {
    if PivotKeysUnique(scored) then Ok(Detailed(scored)) else Err(DuplicatePivotMessage)
  }

  function DetailedNames(rows: seq<DetailedRow>): set<string>
  {
    set r | r in rows :: r.foodItemName
  }

  /** A successful pivot has one row per distinct name, names strictly
      ascending and none twice. */
  lemma PivotRows(scored: seq<Scored>)
    ensures Pivot(scored).Ok? ==> var rows := Pivot(scored).value;
      && |rows| == |GroupKeys(scored)|
      && (forall i, j :: 0 <= i < j < |rows| ==> rows[i].foodItemName != rows[j].foodItemName)
      && (forall i :: 0 < i < |rows| ==>
            StrLeq(rows[i - 1].foodItemName, rows[i].foodItemName) && !StrLeq(rows[i].foodItemName, rows[i - 1].foodItemName))
      && (forall n :: n in DetailedNames(rows) <==> n in Names(scored))
  {
    if PivotKeysUnique(scored) {
      var keys, rows := GroupKeys(scored), Detailed(scored);
      forall n ensures n in DetailedNames(rows) <==> n in Names(scored) {
        if n in Names(scored) {
          var m :| 0 <= m < |keys| && keys[m] == n;
          assert rows[m] in rows;
        }
        if n in DetailedNames(rows) {
          var r :| r in rows && r.foodItemName == n;
          var m :| 0 <= m < |rows| && rows[m] == r;
          assert keys[m] in keys;
        }
      }
    }
  }

  /** Each pivot row's Dine In and Take Away values are that name's probability
      for the order type, or 0 where the combination is missing. */
  lemma PivotCells(scored: seq<Scored>)
    requires PivotKeysUnique(scored)
    ensures var rows := Pivot(scored).value;
      && (forall m, i :: 0 <= m < |rows| && 0 <= i < |scored| && NameOf(scored[i]) == rows[m].foodItemName ==>
            (scored[i].row.orderType == DineIn ==> rows[m].dineIn == scored[i].probability) &&
            (scored[i].row.orderType == TakeAway ==> rows[m].takeAway == scored[i].probability))
      && (forall m :: 0 <= m < |rows| && !HasCell(scored, rows[m].foodItemName, DineIn) ==> rows[m].dineIn == 0.0)
      && (forall m :: 0 <= m < |rows| && !HasCell(scored, rows[m].foodItemName, TakeAway) ==> rows[m].takeAway == 0.0)
  {
    var keys, rows := GroupKeys(scored), Detailed(scored);
    forall m | 0 <= m < |rows|
      ensures rows[m].foodItemName == keys[m]
      ensures rows[m].dineIn == Cell(scored, keys[m], DineIn)
      ensures rows[m].takeAway == Cell(scored, keys[m], TakeAway)
      ensures forall i :: 0 <= i < |scored| && NameOf(scored[i]) == keys[m] && scored[i].row.orderType == DineIn ==>
        rows[m].dineIn == scored[i].probability
      ensures forall i :: 0 <= i < |scored| && NameOf(scored[i]) == keys[m] && scored[i].row.orderType == TakeAway ==>
        rows[m].takeAway == scored[i].probability
      ensures !HasCell(scored, keys[m], DineIn) ==> rows[m].dineIn == 0.0
      ensures !HasCell(scored, keys[m], TakeAway) ==> rows[m].takeAway == 0.0
    {
      CellValue(scored, keys[m], DineIn);
      CellValue(scored, keys[m], TakeAway);
    }
  }

  lemma {:induction false} OnlyOneNamed(scored: seq<Scored>, name: string, a: int)
    requires 0 <= a < |scored| && NameOf(scored[a]) == name
    requires forall k :: 0 <= k < |scored| && NameOf(scored[k]) == name ==> k == a
    ensures ProbabilitiesOf(scored, name) == [scored[a].probability as real]
  {
    var rest := scored[1..];
    if a != 0 {
      forall k | 0 <= k < |rest| && NameOf(rest[k]) == name ensures k == a - 1 {
        assert rest[k] == scored[k + 1];
      }
      OnlyOneNamed(rest, name, a - 1);
    }
  }

  lemma {:induction false} OnlyTwoNamed(scored: seq<Scored>, name: string, a: int, b: int)
    requires 0 <= a < b < |scored| && NameOf(scored[a]) == name && NameOf(scored[b]) == name
    requires forall k :: 0 <= k < |scored| && NameOf(scored[k]) == name ==> k == a || k == b
    ensures ProbabilitiesOf(scored, name) == [scored[a].probability as real, scored[b].probability as real]
  {
    var rest := scored[1..];
    forall k | 0 <= k < |rest| && NameOf(rest[k]) == name ensures k == a - 1 || k == b - 1 {
      assert rest[k] == scored[k + 1];
    }
    if a == 0 {
      OnlyOneNamed(rest, name, b - 1);
    } else {
      OnlyTwoNamed(rest, name, a - 1, b - 1);
    }
  }

  /** The mean over a name's two rows, whichever order they come in. */
  lemma MeanOfTwoRows(scored: seq<Scored>, name: string, a: int, b: int)
    requires 0 <= a < |scored| && 0 <= b < |scored| && a != b
    requires NameOf(scored[a]) == name && NameOf(scored[b]) == name
    requires forall k :: 0 <= k < |scored| && NameOf(scored[k]) == name ==> k == a || k == b
    ensures |ProbabilitiesOf(scored, name)| > 0
    ensures Mean(ProbabilitiesOf(scored, name)) == (scored[a].probability + scored[b].probability) / 2.0
  {
    if a < b {
      OnlyTwoNamed(scored, name, a, b);
    } else {
      OnlyTwoNamed(scored, name, b, a);
    }
    MeanOfPair(ProbabilitiesOf(scored, name));
  }

  lemma MeanOfPair(ps: seq<real>)
    requires |ps| == 2
    ensures Mean(ps) == (ps[0] + ps[1]) / 2.0
  {
    assert Sum(ps) == ps[0] + Sum(ps[1..]) && Sum(ps[1..]) == ps[1] + Sum(ps[2..]);
  }

  /** With unique pivot keys, two rows with the same key are the same row. */
  lemma SameCellSameRow(scored: seq<Scored>, i: int, j: int)
    requires PivotKeysUnique(scored)
    requires 0 <= i < |scored| && 0 <= j < |scored| && SameCell(scored[i], scored[j])
    ensures i == j
  {
  }

  /** A name with exactly one Dine In and one Take Away row, and no other
      row, has as its group mean the mean of its two pivot cells. */
  lemma GroupMeanOfCells(scored: seq<Scored>, name: string)
    requires PivotKeysUnique(scored)
    requires forall i :: 0 <= i < |scored| ==> scored[i].row.orderType == DineIn || scored[i].row.orderType == TakeAway
    requires HasCell(scored, name, DineIn) && HasCell(scored, name, TakeAway)
    ensures |ProbabilitiesOf(scored, name)| > 0
    ensures Mean(ProbabilitiesOf(scored, name)) == (Cell(scored, name, DineIn) + Cell(scored, name, TakeAway)) / 2.0
  {
    var a :| 0 <= a < |scored| && NameOf(scored[a]) == name && scored[a].row.orderType == DineIn;
    var b :| 0 <= b < |scored| && NameOf(scored[b]) == name && scored[b].row.orderType == TakeAway;
    forall k | 0 <= k < |scored| && NameOf(scored[k]) == name ensures k == a || k == b {
      var other := if scored[k].row.orderType == DineIn then a else b;
      SameCellSameRow(scored, k, other);
    }
    MeanOfTwoRows(scored, name, a, b);
    CellValue(scored, name, DineIn);
    CellValue(scored, name, TakeAway);
  }

  /** With unique pivot keys and only the two order types, the m-th group
      mean, when its name has both cells, is the mean of the m-th detailed
      row's two cells. */
  lemma GroupMeanAt(scored: seq<Scored>, m: int)
    requires PivotKeysUnique(scored)
    requires forall i :: 0 <= i < |scored| ==> scored[i].row.orderType == DineIn || scored[i].row.orderType == TakeAway
    requires 0 <= m < |GroupKeys(scored)|
    requires HasCell(scored, GroupKeys(scored)[m], DineIn) && HasCell(scored, GroupKeys(scored)[m], TakeAway)
    ensures var row := Detailed(scored)[m];
      GroupMeans(scored)[m] == OverallEntry(row.foodItemName, (row.dineIn + row.takeAway) / 2.0)
  {
    var n := GroupKeys(scored)[m];
    GroupMeanOfCells(scored, n);
    assert Detailed(scored)[m] == DetailedRow(n, Cell(scored, n, DineIn), Cell(scored, n, TakeAway));
    assert GroupMeans(scored)[m] == OverallEntry(n, Mean(ProbabilitiesOf(scored, n)));
  }

  /** Every group key is the name of some row, so it has both cells when
      every row's name does. */
  lemma KeyHasBothCells(scored: seq<Scored>, m: int)
    requires forall i :: 0 <= i < |scored| ==>
      HasCell(scored, NameOf(scored[i]), DineIn) && HasCell(scored, NameOf(scored[i]), TakeAway)
    requires 0 <= m < |GroupKeys(scored)|
    ensures HasCell(scored, GroupKeys(scored)[m], DineIn) && HasCell(scored, GroupKeys(scored)[m], TakeAway)
  {
    var n := GroupKeys(scored)[m];
    assert n in GroupKeys(scored);
    var i :| 0 <= i < |scored| && Names(scored)[i] == n;
  }

  /** When every name has a Dine In and a Take Away row and no pair repeats,
      the overall ranking holds exactly, for each pivot row, the mean of its
      two cells. */
  lemma OverallIsMeanOfBreakdown(scored: seq<Scored>)
    requires PivotKeysUnique(scored)
    requires forall i :: 0 <= i < |scored| ==> scored[i].row.orderType == DineIn || scored[i].row.orderType == TakeAway
    requires forall i :: 0 <= i < |scored| ==>
      HasCell(scored, NameOf(scored[i]), DineIn) && HasCell(scored, NameOf(scored[i]), TakeAway)
    ensures var detailed := Pivot(scored).value;
      multiset(Overall(scored)) == multiset(seq(|detailed|, m requires 0 <= m < |detailed| =>
        OverallEntry(detailed[m].foodItemName, (detailed[m].dineIn + detailed[m].takeAway) / 2.0)))
  {
    var groups, detailed := GroupMeans(scored), Detailed(scored);
    var means := seq(|detailed|, m requires 0 <= m < |detailed| =>
      OverallEntry(detailed[m].foodItemName, (detailed[m].dineIn + detailed[m].takeAway) / 2.0));
    forall m | 0 <= m < |groups| ensures groups[m] == means[m] {
      KeyHasBothCells(scored, m);
      GroupMeanAt(scored, m);
    }
    assert groups == means;
    OverallPermutesGroups(scored);
  }
}
