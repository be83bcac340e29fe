/** Wide frames as the standalone preprocessing scripts build them: start
    from an empty frame, assign one per-year series per zone, then add a
    column of row sums. The first non-empty series assigned fixes the year
    index; every later series is aligned on it. The frames are then filed in
    dictionaries nested by treatment, scenario and model. */
module Wide {
  import opened Wrappers
  import opened Stats
  import opened Table

  /** A per-year series; a missing year value is NaN. */
  type Series = map<int, Option<real>>

  /** A frame: its year index, its column names in insertion order, and each
      column's values. */
  datatype Frame = Frame(index: set<int>, names: seq<string>, columns: map<string, Series>)

  /** Column names are listed once each, and every column is aligned on the index. */
  ghost predicate WellFormed(f: Frame)
  {
    && (forall n :: n in f.columns <==> n in f.names)
    && Distinct(f.names)
    && (forall n :: n in f.columns ==> f.columns[n].Keys == f.index)
  }

  function Empty(): (f: Frame)
    ensures WellFormed(f)
  {
    Frame({}, [], map[])
  }

  /** A series reindexed on `index`: years it lacks become NaN, years
      outside the index are dropped. */
  function Align(index: set<int>, s: Series): (r: Series)
    ensures r.Keys == index
    ensures forall y :: y in index ==> r[y] == (if y in s then s[y] else None)
  {
    map y | y in index :: if y in s then s[y] else None
  }

  lemma AlignTwice(index: set<int>, s: Series)
    ensures Align(index, Align(index, s)) == Align(index, s)
  {
  }

  lemma AlignEmpty(index: set<int>, s: Series, t: Series)
    requires |s| == 0 && |t| == 0
    ensures Align(index, s) == Align(index, t)
  {
    assert s == t == map[];
  }

  /** `frame[name] = s`. An empty frame takes the index of the first
      non-empty series assigned to it. */
  function Assign(f: Frame, name: string, s: Series): (r: Frame)
    ensures forall n :: n in r.columns <==> n in f.columns || n == name
    ensures r.columns[name] == Align(r.index, s)
    ensures |f.index| > 0 ==> r.index == f.index
    ensures |f.index| == 0 && |s| > 0 ==> r.index == s.Keys
  {
    var index := if |f.index| == 0 && |s| > 0 then s.Keys else f.index;
    var kept := if index == f.index then f.columns else map n | n in f.columns :: Align(index, f.columns[n]);
    Frame(index, if name in f.columns then f.names else f.names + [name], kept[name := Align(index, s)])
  }

  lemma AssignWellFormed(f: Frame, name: string, s: Series)
    requires WellFormed(f)
    ensures WellFormed(Assign(f, name, s))
  {
    var r := Assign(f, name, s);
    if name !in f.columns {
      forall i, j | 0 <= i < j < |r.names|
        ensures r.names[i] != r.names[j]
      {
        if j == |f.names| {
          assert f.names[i] in f.names;
        }
      }
    }
  }

  /** Assigning a new name appends it to the names and the columns. */
  lemma AssignNames(f: Frame, name: string, s: Series)
    requires name !in f.columns
    ensures Assign(f, name, s).names == f.names + [name]
    ensures Assign(f, name, s).columns.Keys == f.columns.Keys + {name}
  {
  }

  /** A column not assigned again is only realigned. */
  lemma AssignKeeps(f: Frame, name: string, s: Series, n: string)
    requires n in f.columns && f.columns[n].Keys == f.index && n != name
    ensures n in Assign(f, name, s).columns
    ensures Assign(f, name, s).columns[n] == Align(Assign(f, name, s).index, f.columns[n])
  {
  }

  /** The index is set once, by the first non-empty series. */
  function FirstIndex(cols: seq<(string, Series)>): set<int>
  {
    if |cols| == 0 then {} else if |cols[0].1| > 0 then cols[0].1.Keys else FirstIndex(cols[1..])
  }

  function Names(cols: seq<(string, Series)>): seq<string>
  {
    seq(|cols|, i requires 0 <= i < |cols| => cols[i].0)
  }

  /** No column is named twice. */
  predicate DistinctNames(cols: seq<(string, Series)>)
  {
    forall i, j :: 0 <= i < j < |cols| ==> cols[i].0 != cols[j].0
  }

  /** Assign the columns in order. */
  function Build(f: Frame, cols: seq<(string, Series)>): Frame
    decreases |cols|
  {
    if |cols| == 0 then f else Build(Assign(f, cols[0].0, cols[0].1), cols[1..])
  }

  lemma {:induction false} BuildWellFormed(f: Frame, cols: seq<(string, Series)>)
    requires WellFormed(f)
    ensures WellFormed(Build(f, cols))
    decreases |cols|
  {
    if |cols| > 0 {
      AssignWellFormed(f, cols[0].0, cols[0].1);
      BuildWellFormed(Assign(f, cols[0].0, cols[0].1), cols[1..]);
    }
  }

  /** A frame keeps a non-empty index; an empty one takes the first
      non-empty series' years. */
  lemma {:induction false} BuildIndex(f: Frame, cols: seq<(string, Series)>)
    ensures Build(f, cols).index == if |f.index| > 0 then f.index else FirstIndex(cols)
    decreases |cols|
  {
    if |cols| > 0 {
      BuildIndex(Assign(f, cols[0].0, cols[0].1), cols[1..]);
    }
  }

  /** Realigning on an index is aligning directly, when the first index was
      the same or the series was empty. */
  lemma Realign(index: set<int>, first: set<int>, s: Series)
    requires index == first || s == map[]
    ensures Align(index, Align(first, s)) == Align(index, s)
  {
  }

  /** A column none of the later assignments names survives, realigned. */
  lemma {:induction false} BuildKeeps(f: Frame, cols: seq<(string, Series)>, n: string)
    requires n in f.columns && f.columns[n].Keys == f.index
    requires forall i :: 0 <= i < |cols| ==> cols[i].0 != n
    ensures n in Build(f, cols).columns
    ensures Build(f, cols).columns[n] == Align(Build(f, cols).index, f.columns[n])
    decreases |cols|
  {
    if |cols| == 0 {
      assert Align(f.index, f.columns[n]) == f.columns[n];
    } else {
      var f1 := Assign(f, cols[0].0, cols[0].1);
      AssignKeeps(f, cols[0].0, cols[0].1, n);
      BuildKeeps(f1, cols[1..], n);
      BuildIndex(f1, cols[1..]);
      if f.columns[n] != map[] {
        assert |f.index| > 0;
      }
      Realign(Build(f1, cols[1..]).index, f1.index, f.columns[n]);
    }
  }

  /** After distinct columns are assigned, each holds its own series
      aligned on the frame's index. */
  lemma {:induction false} BuildColumns(f: Frame, cols: seq<(string, Series)>, j: int)
    requires DistinctNames(cols) && 0 <= j < |cols|
    ensures cols[j].0 in Build(f, cols).columns
    ensures Build(f, cols).columns[cols[j].0] == Align(Build(f, cols).index, cols[j].1)
    decreases |cols|
  {
    var f1 := Assign(f, cols[0].0, cols[0].1);
    if j == 0 {
      BuildKeeps(f1, cols[1..], cols[0].0);
      BuildIndex(f1, cols[1..]);
      var b := Build(f1, cols[1..]);
      if |f1.index| > 0 {
        AlignTwice(f1.index, cols[0].1);
      } else {
        AlignEmpty(f1.index, cols[0].1, map[]);
        AlignEmpty(b.index, cols[0].1, map[]);
      }
    } else {
      assert cols[1..][j - 1] == cols[j];
      BuildColumns(f1, cols[1..], j - 1);
    }
  }

  lemma NamesCons(cols: seq<(string, Series)>)
    requires |cols| > 0
    ensures Names(cols) == [cols[0].0] + Names(cols[1..])
    ensures DistinctNames(cols) ==> DistinctNames(cols[1..])
  {
    assert Names(cols) == [cols[0].0] + Names(cols[1..]);
  }

  /** The names of the columns, in insertion order. */
  lemma {:induction false} BuildNames(f: Frame, cols: seq<(string, Series)>)
    requires DistinctNames(cols)
    requires forall i :: 0 <= i < |cols| ==> cols[i].0 !in f.columns
    ensures Build(f, cols).names == f.names + Names(cols)
    decreases |cols|
  {
    if |cols| > 0 {
      var rest := cols[1..];
      var f1 := Assign(f, cols[0].0, cols[0].1);
      AssignNames(f, cols[0].0, cols[0].1);
      forall i | 0 <= i < |rest|
        ensures rest[i].0 !in f1.columns
      {
        assert rest[i] == cols[i + 1];
      }
      NamesCons(cols);
      BuildNames(f1, rest);
      assert Build(f, cols) == Build(f1, rest);
      assert f1.names + Names(rest) == f.names + ([cols[0].0] + Names(rest));
    }
  }

  // ---------------------------------------------------------------------------
  // Row sums
  // ---------------------------------------------------------------------------

  /** The value of a column at a year; NaN where there is none. */
  function Cell(f: Frame, name: string, y: int): Option<real>
  {
    if name in f.columns && y in f.columns[name] then f.columns[name][y] else None
  }

  /** The values of the named columns at a year. */
  function Cells(f: Frame, names: seq<string>, y: int): seq<Option<real>>
  {
    seq(|names|, j requires 0 <= j < |names| => Cell(f, names[j], y))
  }

  function RowCells(f: Frame, y: int): seq<Option<real>>
  {
    Cells(f, f.names, y)
  }

  /** `frame.sum(axis=1)`: the present values of each row summed; a row with
      none sums to 0. */
  function RowSums(f: Frame): (r: Series)
    ensures r.Keys == f.index
    ensures forall y :: y in r ==> r[y].Some? && r[y].value == Sum(Present(RowCells(f, y)))
  {
    map y | y in f.index :: Some(SumSkipNa(RowCells(f, y)))
  }

  /** `frame[name] = frame.sum(axis=1)`. */
  function WithTotal(f: Frame, name: string): Frame
  {
    Assign(f, name, RowSums(f))
  }

  /** The row sums are indexed like the frame, so adding them realigns nothing. */
  lemma WithTotalColumns(f: Frame, name: string)
    ensures WithTotal(f, name).index == f.index
    ensures WithTotal(f, name).columns == f.columns[name := RowSums(f)]
  {
    var s := RowSums(f);
    assert s.Keys == f.index;
    assert Align(f.index, s) == s;
  }

  /** The total column holds each row's sum of the other columns, which keep
      their values. */
  lemma WithTotalCells(f: Frame, name: string)
    requires WellFormed(f) && name !in f.columns
    ensures WellFormed(WithTotal(f, name))
    ensures WithTotal(f, name).index == f.index
    ensures WithTotal(f, name).names == f.names + [name]
    ensures forall n :: n in f.columns ==> WithTotal(f, name).columns[n] == f.columns[n]
    ensures forall y :: y in f.index ==> Cell(WithTotal(f, name), name, y) == Some(SumSkipNa(RowCells(f, y)))
  {
    AssignWellFormed(f, name, RowSums(f));
    WithTotalColumns(f, name);
  }

  /** With every column present at a year, the total is the plain sum. */
  lemma TotalOfPresent(f: Frame, y: int, vs: seq<real>)
    requires |vs| == |f.names|
    requires forall j :: 0 <= j < |vs| ==> Cell(f, f.names[j], y) == Some(vs[j])
    ensures SumSkipNa(RowCells(f, y)) == Sum(vs)
  {
    assert RowCells(f, y) == seq(|vs|, j requires 0 <= j < |vs| => Some(vs[j]));
    PresentOfSome(vs);
  }

  // ---------------------------------------------------------------------------
  // One column per zone, then the row sums
  // ---------------------------------------------------------------------------

  /** A series' value at a year; NaN where it has none. */
  function At(s: Series, y: int): Option<real>
  {
    if y in s then s[y] else None
  }

  /** Read one file per zone, in order, and reduce each to a per-year series;
      the first file that is missing stops the run. */
  function ReadColumns(files: Files, zones: seq<string>, pathOf: string -> string, seriesOf: Csv -> Series)
    : (r: Result<seq<(string, Series)>, Error>)
    ensures r.Ok? <==> forall z :: z in zones ==> pathOf(z) in files
    ensures r.Err? ==> exists z :: z in zones && r.error == MissingFile(pathOf(z))
    ensures r.Ok? ==> |r.value| == |zones|
    ensures r.Ok? ==> forall i :: 0 <= i < |zones| ==> r.value[i] == (zones[i], seriesOf(files[pathOf(zones[i])]))
    decreases |zones|
  {
    if |zones| == 0 then Ok([])
    else
      var csv :- ReadCsv(files, pathOf(zones[0]));
      var rest :- ReadColumns(files, zones[1..], pathOf, seriesOf);
      Ok([(zones[0], seriesOf(csv))] + rest)
  }

  /** Start from an empty frame, assign each column, then add the column
      `total` of row sums. */
  function Totalled(cols: seq<(string, Series)>, total: string): Frame
  {
    WithTotal(Build(Empty(), cols), total)
  }

  /** Columns assigned to an empty frame under distinct names keep their
      order, and each holds its series aligned on the first non-empty
      series' years. */
  lemma BuiltShape(cols: seq<(string, Series)>)
    requires DistinctNames(cols)
    ensures WellFormed(Build(Empty(), cols))
    ensures Build(Empty(), cols).names == Names(cols)
    ensures Build(Empty(), cols).index == FirstIndex(cols)
    ensures forall i :: 0 <= i < |cols| ==> cols[i].0 in Build(Empty(), cols).columns && Build(Empty(), cols).columns[cols[i].0] == Align(FirstIndex(cols), cols[i].1)
  {
    BuildWellFormed(Empty(), cols);
    BuildNames(Empty(), cols);
    BuildIndex(Empty(), cols);
    forall i | 0 <= i < |cols|
      ensures cols[i].0 in Build(Empty(), cols).columns
      ensures Build(Empty(), cols).columns[cols[i].0] == Align(FirstIndex(cols), cols[i].1)
    {
      BuildColumns(Empty(), cols, i);
    }
  }

  /** Frames that agree on some columns agree on their cells. */
  lemma SameCells(b: Frame, f: Frame, names: seq<string>, y: int)
    requires forall j :: 0 <= j < |names| ==> names[j] in b.columns && names[j] in f.columns
    requires forall j :: 0 <= j < |names| ==> f.columns[names[j]] == b.columns[names[j]]
    ensures Cells(b, names, y) == Cells(f, names, y)
  {
  }

  /** The totalled frame has the assigned columns and then the total, on the
      years of the first non-empty series. */
  lemma TotalledNames(cols: seq<(string, Series)>, total: string)
    requires DistinctNames(cols) && total !in Names(cols)
    ensures WellFormed(Totalled(cols, total))
    ensures Totalled(cols, total).names == Names(cols) + [total]
    ensures Totalled(cols, total).index == FirstIndex(cols)
  {
    var b := Build(Empty(), cols);
    BuiltShape(cols);
    assert total !in b.columns;
    WithTotalCells(b, total);
  }

  /** Each assigned column of the totalled frame is its series. */
  lemma TotalledColumns(cols: seq<(string, Series)>, total: string, i: int, y: int)
    requires DistinctNames(cols) && total !in Names(cols)
    requires 0 <= i < |cols| && y in FirstIndex(cols)
    ensures Cell(Totalled(cols, total), cols[i].0, y) == At(cols[i].1, y)
  {
    var b := Build(Empty(), cols);
    BuiltShape(cols);
    assert total !in b.columns;
    WithTotalCells(b, total);
    assert cols[i].0 == b.names[i];
    assert Totalled(cols, total).columns[cols[i].0] == b.columns[cols[i].0];
  }

  /** The total column sums the frame's own columns as they stand after it
      is added. */
  lemma TotalOfOwnColumns(b: Frame, total: string, y: int)
    requires WellFormed(b) && total !in b.columns && y in b.index
    ensures Cell(WithTotal(b, total), total, y) == Some(SumSkipNa(Cells(WithTotal(b, total), b.names, y)))
  {
    WithTotalCells(b, total);
    SameCells(b, WithTotal(b, total), b.names, y);
  }

  /** The total is the NaN-skipping sum of the assigned columns. */
  lemma TotalledTotal(cols: seq<(string, Series)>, total: string, y: int)
    requires DistinctNames(cols) && total !in Names(cols)
    requires y in FirstIndex(cols)
    ensures Cell(Totalled(cols, total), total, y) == Some(SumSkipNa(Cells(Totalled(cols, total), Names(cols), y)))
  {
    BuiltShape(cols);
    TotalOfOwnColumns(Build(Empty(), cols), total, y);
  }

  /** Read one file per zone, assign each zone's series to an empty frame,
      then add the column `total` of row sums. */
  function ZoneFrame(files: Files, zones: seq<string>, total: string, pathOf: string -> string, seriesOf: Csv -> Series)
    : Result<Frame, Error>
  {
    var cols :- ReadColumns(files, zones, pathOf, seriesOf);
    Ok(Totalled(cols, total))
  }

  /** A zone frame is built exactly when every zone's file exists;
      otherwise the first missing one stops it. */
  lemma ZoneFrameOk(files: Files, zones: seq<string>, total: string, pathOf: string -> string, seriesOf: Csv -> Series)
    ensures ZoneFrame(files, zones, total, pathOf, seriesOf).Ok? <==> forall z :: z in zones ==> pathOf(z) in files
    ensures ZoneFrame(files, zones, total, pathOf, seriesOf).Err?
            ==> exists z :: z in zones && ZoneFrame(files, zones, total, pathOf, seriesOf).error == MissingFile(pathOf(z))
  {
  }

  /** The index of a zone frame is the years of the first zone with any. */
  lemma ZoneFrameIndex(files: Files, zones: seq<string>, total: string, pathOf: string -> string, seriesOf: Csv -> Series)
    requires ZoneFrame(files, zones, total, pathOf, seriesOf).Ok?
    ensures ZoneFrame(files, zones, total, pathOf, seriesOf).value.index == FirstIndex(ReadColumns(files, zones, pathOf, seriesOf).value)
  {
    var cols := ReadColumns(files, zones, pathOf, seriesOf).value;
    var b := Build(Empty(), cols);
    BuildIndex(Empty(), cols);
    assert RowSums(b).Keys == b.index;
  }

  /** The zone frame has one column per zone and then the total; each zone
      column is its file's series; and the total is the NaN-skipping sum of
      the zone columns. */
  lemma ZoneFrameShape(files: Files, zones: seq<string>, total: string, pathOf: string -> string, seriesOf: Csv -> Series)
    requires Distinct(zones) && total !in zones
    requires ZoneFrame(files, zones, total, pathOf, seriesOf).Ok?
    ensures WellFormed(ZoneFrame(files, zones, total, pathOf, seriesOf).value)
    ensures ZoneFrame(files, zones, total, pathOf, seriesOf).value.names == zones + [total]
    ensures ZoneFrame(files, zones, total, pathOf, seriesOf).value.index == FirstIndex(ReadColumns(files, zones, pathOf, seriesOf).value)
    ensures forall i, y :: 0 <= i < |zones| && y in ZoneFrame(files, zones, total, pathOf, seriesOf).value.index
              ==> Cell(ZoneFrame(files, zones, total, pathOf, seriesOf).value, zones[i], y) == At(seriesOf(files[pathOf(zones[i])]), y)
    ensures forall y :: y in ZoneFrame(files, zones, total, pathOf, seriesOf).value.index
              ==> Cell(ZoneFrame(files, zones, total, pathOf, seriesOf).value, total, y)
                  == Some(SumSkipNa(Cells(ZoneFrame(files, zones, total, pathOf, seriesOf).value, zones, y)))
  {
    var cols := ReadColumns(files, zones, pathOf, seriesOf).value;
    assert Names(cols) == zones;
    TotalledNames(cols, total);
    forall i, y | 0 <= i < |zones| && y in FirstIndex(cols)
      ensures Cell(Totalled(cols, total), zones[i], y) == At(seriesOf(files[pathOf(zones[i])]), y)
    {
      TotalledColumns(cols, total, i, y);
    }
    forall y | y in FirstIndex(cols)
      ensures Cell(Totalled(cols, total), total, y) == Some(SumSkipNa(Cells(Totalled(cols, total), zones, y)))
    {
      TotalledTotal(cols, total, y);
    }
  }

  // ---------------------------------------------------------------------------
  // Dictionaries nested by treatment, scenario and model
  // ---------------------------------------------------------------------------

  /** `d[model] = frame` for each model in turn; stops at the first frame
      that cannot be built. */
  function ModelMap<F>(t: string, s: string, models: seq<string>, frameOf: (string, string, string) -> Result<F, Error>,
                       acc: map<string, F>): Result<map<string, F>, Error>
    decreases |models|
  {
    if |models| == 0 then Ok(acc)
    else
      var frame :- frameOf(t, s, models[0]);
      ModelMap(t, s, models[1..], frameOf, acc[models[0] := frame])
  }

  /** `d[scenario] = {}` then its models, for each scenario in turn. */
  function ScenarioMap<F>(t: string, scenarios: seq<string>, models: seq<string>,
                          frameOf: (string, string, string) -> Result<F, Error>,
                          acc: map<string, map<string, F>>): Result<map<string, map<string, F>>, Error>
    decreases |scenarios|
  {
    if |scenarios| == 0 then Ok(acc)
    else
      var inner :- ModelMap(t, scenarios[0], models, frameOf, map[]);
      ScenarioMap(t, scenarios[1..], models, frameOf, acc[scenarios[0] := inner])
  }

  /** `d[treatment] = {}` then its scenarios, for each treatment in turn. */
  function TreatmentMap<F>(treatments: seq<string>, scenarios: seq<string>, models: seq<string>,
                           frameOf: (string, string, string) -> Result<F, Error>,
                           acc: map<string, map<string, map<string, F>>>): Result<map<string, map<string, map<string, F>>>, Error>
    decreases |treatments|
  {
    if |treatments| == 0 then Ok(acc)
    else
      var inner :- ScenarioMap(treatments[0], scenarios, models, frameOf, map[]);
      TreatmentMap(treatments[1..], scenarios, models, frameOf, acc[treatments[0] := inner])
  }

  lemma {:induction false} ModelMapOk<F>(t: string, s: string, models: seq<string>,
                                         frameOf: (string, string, string) -> Result<F, Error>, acc: map<string, F>)
    ensures ModelMap(t, s, models, frameOf, acc).Ok? <==> forall m :: m in models ==> frameOf(t, s, m).Ok?
    ensures ModelMap(t, s, models, frameOf, acc).Err?
            ==> exists m :: m in models && frameOf(t, s, m) == Err(ModelMap(t, s, models, frameOf, acc).error)
    ensures ModelMap(t, s, models, frameOf, acc).Ok? ==>
              && (forall k :: k in ModelMap(t, s, models, frameOf, acc).value <==> k in acc || k in models)
              && (forall m :: m in models ==> ModelMap(t, s, models, frameOf, acc).value[m] == frameOf(t, s, m).value)
              && (forall m :: m in acc && m !in models ==> ModelMap(t, s, models, frameOf, acc).value[m] == acc[m])
    decreases |models|
  {
    if |models| > 0 {
      var r0 := frameOf(t, s, models[0]);
      assert models[0] in models;
      if r0.Ok? {
        var acc' := acc[models[0] := r0.value];
        ModelMapOk(t, s, models[1..], frameOf, acc');
        assert forall m :: m in models <==> m == models[0] || m in models[1..];
      }
    }
  }

  lemma {:induction false} ScenarioMapOk<F>(t: string, scenarios: seq<string>, models: seq<string>,
                                            frameOf: (string, string, string) -> Result<F, Error>,
                                            acc: map<string, map<string, F>>)
    ensures ScenarioMap(t, scenarios, models, frameOf, acc).Ok?
            <==> forall s, m :: s in scenarios && m in models ==> frameOf(t, s, m).Ok?
    ensures ScenarioMap(t, scenarios, models, frameOf, acc).Err?
            ==> exists s, m :: s in scenarios && m in models && frameOf(t, s, m) == Err(ScenarioMap(t, scenarios, models, frameOf, acc).error)
    ensures ScenarioMap(t, scenarios, models, frameOf, acc).Ok? ==>
              && (forall k :: k in ScenarioMap(t, scenarios, models, frameOf, acc).value <==> k in acc || k in scenarios)
              && (forall k :: k in acc && k !in scenarios ==> ScenarioMap(t, scenarios, models, frameOf, acc).value[k] == acc[k])
              && (forall s, k :: s in scenarios ==> (k in ScenarioMap(t, scenarios, models, frameOf, acc).value[s] <==> k in models))
              && (forall s, m :: s in scenarios && m in models
                    ==> ScenarioMap(t, scenarios, models, frameOf, acc).value[s][m] == frameOf(t, s, m).value)
    decreases |scenarios|
  {
    if |scenarios| > 0 {
      var s0 := scenarios[0];
      assert s0 in scenarios;
      ModelMapOk(t, s0, models, frameOf, map[]);
      var r0 := ModelMap(t, s0, models, frameOf, map[]);
      if r0.Ok? {
        ScenarioMapOk(t, scenarios[1..], models, frameOf, acc[s0 := r0.value]);
        assert forall s :: s in scenarios <==> s == s0 || s in scenarios[1..];
      } else {
        var m :| m in models && frameOf(t, s0, m) == Err(r0.error);
      }
    }
  }

  /** The nested dictionaries hold exactly one frame per treatment, scenario
      and model, and are built exactly when every frame can be. */
  lemma {:induction false} TreatmentMapOk<F>(treatments: seq<string>, scenarios: seq<string>, models: seq<string>,
                                             frameOf: (string, string, string) -> Result<F, Error>,
                                             acc: map<string, map<string, map<string, F>>>)
    ensures TreatmentMap(treatments, scenarios, models, frameOf, acc).Ok?
            <==> forall t, s, m :: t in treatments && s in scenarios && m in models ==> frameOf(t, s, m).Ok?
    ensures TreatmentMap(treatments, scenarios, models, frameOf, acc).Err?
            ==> exists t, s, m :: && t in treatments && s in scenarios && m in models
                                  && frameOf(t, s, m) == Err(TreatmentMap(treatments, scenarios, models, frameOf, acc).error)
    ensures TreatmentMap(treatments, scenarios, models, frameOf, acc).Ok? ==>
              && (forall k :: k in TreatmentMap(treatments, scenarios, models, frameOf, acc).value <==> k in acc || k in treatments)
              && (forall k :: k in acc && k !in treatments ==> TreatmentMap(treatments, scenarios, models, frameOf, acc).value[k] == acc[k])
              && (forall t, k :: t in treatments
                    ==> (k in TreatmentMap(treatments, scenarios, models, frameOf, acc).value[t] <==> k in scenarios))
              && (forall t, s, k :: t in treatments && s in scenarios
                    ==> (k in TreatmentMap(treatments, scenarios, models, frameOf, acc).value[t][s] <==> k in models))
              && (forall t, s, m :: t in treatments && s in scenarios && m in models
                    ==> TreatmentMap(treatments, scenarios, models, frameOf, acc).value[t][s][m] == frameOf(t, s, m).value)
    decreases |treatments|
  {
    if |treatments| > 0 {
      var t0 := treatments[0];
      assert t0 in treatments;
      ScenarioMapOk(t0, scenarios, models, frameOf, map[]);
      var r0 := ScenarioMap(t0, scenarios, models, frameOf, map[]);
      if r0.Ok? {
        TreatmentMapOk(treatments[1..], scenarios, models, frameOf, acc[t0 := r0.value]);
        assert forall t :: t in treatments <==> t == t0 || t in treatments[1..];
      } else {
        var s, m :| s in scenarios && m in models && frameOf(t0, s, m) == Err(r0.error);
      }
    }
  }
}
