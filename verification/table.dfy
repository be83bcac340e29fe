/** The flat tables the preprocessing steps build, and the pandas operations
    they are built with: reading a source CSV, aligning a per-year reduction on
    a year index, filtering rows, grouped reductions, and loops that append to
    the table they read from. */
module Table {
  import opened Wrappers
  import opened Stats

  /** One source CSV: each year's row of stochastic replicate values. */
  type Csv = map<int, seq<real>>

  /** The files present on disk, by path (`os.path.isfile` is membership). */
  type Files = map<string, Csv>

  /** Why a preprocessing run stops. */
  datatype Error =
    | MissingFile(path: string)
    | MissingSpruce(spatialPrefix: string, treatment: string, scenario: string, model: string, region: string)
    | UnknownYear(year: int)
    | UnknownOption(option: string)
    | MissingYear(year: int)
    /** A cost row whose area is missing (NaN) cannot be rounded to acres. */
    | MissingArea(year: int, option: string)
    /** A filtered column whose year index repeats a year cannot be aligned. */
    | DuplicateIndex
    /** `.loc` found a single row of the year: a Series mixing labels and
        counts, which `.sum()` cannot add up. */
    | SingleRow(year: int)
    /** A column that no frame of the concatenated table has. */
    | MissingColumn(column: string)
    /** `pd.concat` of an empty list of frames. */
    | NoFrames

  ghost predicate Distinct<T>(s: seq<T>)
  {
    forall i, j :: 0 <= i < j < |s| ==> s[i] != s[j]
  }

  /** `pd.read_csv`: fails on a path that is not a file. */
  function ReadCsv(files: Files, path: string): (r: Result<Csv, Error>)
    ensures r.Ok? <==> path in files
    ensures r.Err? ==> r.error == MissingFile(path)
  {
    if path in files then Ok(files[path]) else Err(MissingFile(path))
  }

  // ---------------------------------------------------------------------------
  // Per-year reductions of one source file, aligned on a year index
  // ---------------------------------------------------------------------------

  /** The file has replicates for `year`, so that year's mean and median are present. */
  predicate HasReplicates(csv: Csv, year: int)
  {
    year in csv && |csv[year]| > 0
  }

  /** Mean of the replicates of `year`; missing (NaN) when the file has no
      such year or the row is empty. */
  function MeanAt(csv: Csv, year: int): (v: Option<real>)
    ensures v.Some? <==> year in csv && |csv[year]| > 0
  {
    if year in csv then Mean(csv[year]) else None
  }

  /** Median of the replicates of `year`, missing as for `MeanAt`. */
  function MedianAt(csv: Csv, year: int): (v: Option<real>)
    ensures v.Some? <==> year in csv && |csv[year]| > 0
  {
    if year in csv then Median(csv[year]) else None
  }

  // ---------------------------------------------------------------------------
  // Filtering and grouped reductions
  // ---------------------------------------------------------------------------

  /** Column `val` of the rows that satisfy `keep`, in table order. */
  function Select<R, V(==)>(rows: seq<R>, keep: R -> bool, val: R -> V): (r: seq<V>)
    ensures |r| <= |rows|
    ensures forall i :: 0 <= i < |rows| && keep(rows[i]) ==> val(rows[i]) in r
    ensures forall v :: v in r ==> exists i :: 0 <= i < |rows| && keep(rows[i]) && val(rows[i]) == v
  {
    if |rows| == 0 then []
    else (if keep(rows[0]) then [val(rows[0])] else []) + Select(rows[1..], keep, val)
  }

  lemma {:induction false} SelectConcat<R, V>(a: seq<R>, b: seq<R>, keep: R -> bool, val: R -> V)
    ensures Select(a + b, keep, val) == Select(a, keep, val) + Select(b, keep, val)
  {
    if |a| == 0 {
      assert a + b == b;
    } else {
      assert (a + b)[1..] == a[1..] + b;
      SelectConcat(a[1..], b, keep, val);
    }
  }

  /** A kept first row heads the selection. */
  lemma SelectHead<R, V>(rows: seq<R>, keep: R -> bool, val: R -> V)
    requires |rows| > 0 && keep(rows[0])
    ensures |Select(rows, keep, val)| > 0 && Select(rows, keep, val)[0] == val(rows[0])
  {
  }

  /** A rejected first row contributes nothing. */
  lemma SelectSkip<R, V>(rows: seq<R>, keep: R -> bool, val: R -> V)
    requires |rows| > 0 && !keep(rows[0])
    ensures Select(rows, keep, val) == Select(rows[1..], keep, val)
  {
  }

  /** When the filter keeps every row, the selection is the whole column. */
  lemma {:induction false} SelectAllKept<R, V>(rows: seq<R>, keep: R -> bool, val: R -> V)
    requires forall i :: 0 <= i < |rows| ==> keep(rows[i])
    ensures Select(rows, keep, val) == seq(|rows|, i requires 0 <= i < |rows| => val(rows[i]))
  {
    if |rows| > 0 {
      SelectAllKept(rows[1..], keep, val);
      assert keep(rows[0]);
    }
  }

  /** Rows the filter rejects contribute nothing. */
  lemma {:induction false} SelectNone<R, V>(rows: seq<R>, keep: R -> bool, val: R -> V)
    requires forall i :: 0 <= i < |rows| ==> !keep(rows[i])
    ensures Select(rows, keep, val) == []
  {
    if |rows| > 0 {
      SelectNone(rows[1..], keep, val);
    }
  }

  /** Appending rows the filter rejects leaves the selection unchanged. */
  lemma SelectIgnoresRejected<R, V>(rows: seq<R>, extra: seq<R>, keep: R -> bool, val: R -> V)
    requires forall i :: 0 <= i < |extra| ==> !keep(extra[i])
    ensures Select(rows + extra, keep, val) == Select(rows, keep, val)
  {
    SelectConcat(rows, extra, keep, val);
    SelectNone(extra, keep, val);
  }

  /** Two columns of the same filtered rows have the same length. */
  lemma {:induction false} SelectSameRows<R, V, W>(rows: seq<R>, keep: R -> bool, v1: R -> V, v2: R -> W)
    ensures |Select(rows, keep, v1)| == |Select(rows, keep, v2)|
  {
    if |rows| > 0 {
      SelectSameRows(rows[1..], keep, v1, v2);
    }
  }

  /** The filter selects something exactly when some row passes it. */
  lemma {:induction false} SelectEmpty<R, V>(rows: seq<R>, keep: R -> bool, val: R -> V)
    ensures |Select(rows, keep, val)| > 0 <==> exists i :: 0 <= i < |rows| && keep(rows[i])
  {
    if |rows| > 0 {
      SelectEmpty(rows[1..], keep, val);
      if exists i :: 0 <= i < |rows| && keep(rows[i]) {
        var i :| 0 <= i < |rows| && keep(rows[i]);
        if i > 0 {
          assert keep(rows[1..][i - 1]);
        }
      }
    }
  }

  /** Two different rows pass the filter. */
  predicate KeepsTwo<R>(rows: seq<R>, keep: R -> bool)
  {
    exists i, j :: 0 <= i < j < |rows| && keep(rows[i]) && keep(rows[j])
  }

  /** Two rows pass when the first row and a later one do, or two later ones do. */
  lemma KeepsTwoCons<R>(rows: seq<R>, keep: R -> bool)
    requires |rows| > 0
    ensures KeepsTwo(rows, keep)
            <==> || (keep(rows[0]) && exists j :: 0 <= j < |rows[1..]| && keep(rows[1..][j]))
                 || KeepsTwo(rows[1..], keep)
  {
    var tail := rows[1..];
    if KeepsTwo(rows, keep) {
      var i, j :| 0 <= i < j < |rows| && keep(rows[i]) && keep(rows[j]);
      assert keep(tail[j - 1]);
      if i > 0 {
        assert keep(tail[i - 1]);
      }
    }
    if keep(rows[0]) && exists j :: 0 <= j < |tail| && keep(tail[j]) {
      var j :| 0 <= j < |tail| && keep(tail[j]);
      assert keep(rows[j + 1]);
    }
    if KeepsTwo(tail, keep) {
      var i, j :| 0 <= i < j < |tail| && keep(tail[i]) && keep(tail[j]);
      assert keep(rows[i + 1]) && keep(rows[j + 1]);
    }
  }

  /** The filter selects more than one value exactly when two rows pass it. */
  lemma {:induction false} SelectMany<R, V>(rows: seq<R>, keep: R -> bool, val: R -> V)
    ensures |Select(rows, keep, val)| > 1 <==> KeepsTwo(rows, keep)
  {
    if |rows| > 0 {
      SelectMany(rows[1..], keep, val);
      SelectEmpty(rows[1..], keep, val);
      KeepsTwoCons(rows, keep);
    }
  }

  /** `groupby(...).sum()` on one group: a year with no row at all is absent
      from the grouped result (NaN once re-aligned); otherwise missing values
      are skipped and an all-missing group sums to 0. */
  function GroupSum(vals: seq<Option<real>>): (r: Option<real>)
    ensures r.Some? <==> |vals| > 0
  {
    if |vals| == 0 then None else Some(SumSkipNa(vals))
  }

  /** Two group sums added, an absent group adding nothing. */
  function JoinSums(a: Option<real>, b: Option<real>): (r: Option<real>)
    ensures r.Some? <==> a.Some? || b.Some?
  {
    if a.None? then b else if b.None? then a else Some(a.value + b.value)
  }

  /** Summing a group split in two is summing each part and adding. */
  lemma GroupSumConcat(a: seq<Option<real>>, b: seq<Option<real>>)
    ensures GroupSum(a + b) == JoinSums(GroupSum(a), GroupSum(b))
  {
    if |a| == 0 {
      assert a + b == b;
    } else if |b| == 0 {
      assert a + b == a;
    } else {
      SumSkipNaConcat(a, b);
    }
  }

  /** A non-empty group with no missing value sums to the sum of its values. */
  lemma GroupSumOfValues(vs: seq<real>)
    requires |vs| > 0
    ensures GroupSum(seq(|vs|, i requires 0 <= i < |vs| => Some(vs[i]))) == Some(Sum(vs))
  {
    PresentOfSome(vs);
  }

  /** A `groupby` sum over rows that all belong to the group, each with a
      present value, is the sum of those values. */
  lemma GroupSumOfSelected<R>(rows: seq<R>, keep: R -> bool, val: R -> Option<real>, vs: seq<real>)
    requires |rows| > 0 && |vs| == |rows|
    requires forall i :: 0 <= i < |rows| ==> keep(rows[i]) && val(rows[i]) == Some(vs[i])
    ensures GroupSum(Select(rows, keep, val)) == Some(Sum(vs))
  {
    SelectAllKept(rows, keep, val);
    assert Select(rows, keep, val) == seq(|vs|, i requires 0 <= i < |vs| => Some(vs[i]));
    GroupSumOfValues(vs);
  }

  // ---------------------------------------------------------------------------
  // Iteration over keys
  // ---------------------------------------------------------------------------

  /** The key triples of three nested loops, in loop order. */
  function Cross3(xs: seq<string>, ys: seq<string>, zs: seq<string>): (r: seq<(string, string, string)>)
    ensures |r| == |xs| * (|ys| * |zs|)
  {
    if |xs| == 0 then []
    else
      var n := |ys| * |zs|;
      assert |xs| * n == n + (|xs| - 1) * n;
      Cross2(xs[0], ys, zs) + Cross3(xs[1..], ys, zs)
  }

  function Cross2(x: string, ys: seq<string>, zs: seq<string>): (r: seq<(string, string, string)>)
    ensures |r| == |ys| * |zs|
  {
    if |ys| == 0 then []
    else Cross1(x, ys[0], zs) + Cross2(x, ys[1..], zs)
  }

  function Cross1(x: string, y: string, zs: seq<string>): (r: seq<(string, string, string)>)
    ensures |r| == |zs|
  {
    if |zs| == 0 then []
    else [(x, y, zs[0])] + Cross1(x, y, zs[1..])
  }

  /** The product holds exactly the triples of one member of each list. */
  lemma {:induction false} Cross3Has(xs: seq<string>, ys: seq<string>, zs: seq<string>)
    ensures forall x, y, z :: (x, y, z) in Cross3(xs, ys, zs) <==> x in xs && y in ys && z in zs
  {
    if |xs| > 0 {
      Cross2Has(xs[0], ys, zs);
      Cross3Has(xs[1..], ys, zs);
      assert forall x :: x in xs <==> x == xs[0] || x in xs[1..];
    }
  }

  lemma {:induction false} Cross2Has(x: string, ys: seq<string>, zs: seq<string>)
    ensures forall x', y, z :: (x', y, z) in Cross2(x, ys, zs) <==> x' == x && y in ys && z in zs
  {
    if |ys| > 0 {
      Cross1Has(x, ys[0], zs);
      Cross2Has(x, ys[1..], zs);
      assert forall y :: y in ys <==> y == ys[0] || y in ys[1..];
    }
  }

  lemma {:induction false} Cross1Has(x: string, y: string, zs: seq<string>)
    ensures forall x', y', z :: (x', y', z) in Cross1(x, y, zs) <==> x' == x && y' == y && z in zs
  {
    if |zs| > 0 {
      Cross1Has(x, y, zs[1..]);
      assert forall z :: z in zs <==> z == zs[0] || z in zs[1..];
    }
  }

  lemma {:induction false} Cross3Distinct(xs: seq<string>, ys: seq<string>, zs: seq<string>)
    requires Distinct(xs) && Distinct(ys) && Distinct(zs)
    ensures Distinct(Cross3(xs, ys, zs))
  {
    if |xs| > 0 {
      Cross2Has(xs[0], ys, zs);
      Cross3Has(xs[1..], ys, zs);
      Cross2Distinct(xs[0], ys, zs);
      Cross3Distinct(xs[1..], ys, zs);
      var inner, rest := Cross2(xs[0], ys, zs), Cross3(xs[1..], ys, zs);
      forall i, j | 0 <= i < |inner| && 0 <= j < |rest|
        ensures inner[i] != rest[j]
      {
        assert inner[i] in inner && rest[j] in rest;
        assert inner[i].0 == xs[0];
        assert rest[j].0 in xs[1..];
      }
    }
  }

  lemma {:induction false} Cross2Distinct(x: string, ys: seq<string>, zs: seq<string>)
    requires Distinct(ys) && Distinct(zs)
    ensures Distinct(Cross2(x, ys, zs))
  {
    if |ys| > 0 {
      Cross1Has(x, ys[0], zs);
      Cross2Has(x, ys[1..], zs);
      Cross1Distinct(x, ys[0], zs);
      Cross2Distinct(x, ys[1..], zs);
      var inner, rest := Cross1(x, ys[0], zs), Cross2(x, ys[1..], zs);
      forall i, j | 0 <= i < |inner| && 0 <= j < |rest|
        ensures inner[i] != rest[j]
      {
        assert inner[i] in inner && rest[j] in rest;
        assert inner[i].1 == ys[0];
        assert rest[j].1 in ys[1..];
      }
    }
  }

  lemma {:induction false} Cross1Distinct(x: string, y: string, zs: seq<string>)
    requires Distinct(zs)
    ensures Distinct(Cross1(x, y, zs))
  {
    if |zs| > 0 {
      Cross1Has(x, y, zs[1..]);
      Cross1Distinct(x, y, zs[1..]);
      var rest := Cross1(x, y, zs[1..]);
      forall j | 0 <= j < |rest|
        ensures (x, y, zs[0]) != rest[j]
      {
        assert rest[j] in rest;
        assert rest[j].2 in zs[1..];
      }
    }
  }

  /** The concatenation of a sequence of sequences, in order. */
  function Flatten<T>(ss: seq<seq<T>>): seq<T>
  {
    if |ss| == 0 then [] else ss[0] + Flatten(ss[1..])
  }

  /** The triples of every group are listed once a group has a value and the
      other two lists are not empty. */
  lemma CrossesNonEmpty(xs: seq<string>, ys: seq<string>, groups: seq<(string, seq<string>)>, p: int, z: string)
    requires |xs| > 0 && |ys| > 0 && 0 <= p < |groups| && z in groups[p].1
    ensures |Flatten(seq(|groups|, q requires 0 <= q < |groups| => Cross3(xs, ys, groups[q].1)))| > 0
  {
    var parts := seq(|groups|, q requires 0 <= q < |groups| => Cross3(xs, ys, groups[q].1));
    Cross3Has(xs, ys, groups[p].1);
    assert (xs[0], ys[0], z) in parts[p];
    FlattenHas(parts, (xs[0], ys[0], z));
  }

  /** An element of the concatenation is an element of one of the parts. */
  lemma {:induction false} FlattenHas<T>(ss: seq<seq<T>>, x: T)
    ensures x in Flatten(ss) <==> exists i :: 0 <= i < |ss| && x in ss[i]
  {
    if |ss| > 0 {
      var rest := ss[1..];
      FlattenHas(rest, x);
      assert Flatten(ss) == ss[0] + Flatten(rest);
      if x in Flatten(ss) && x !in ss[0] {
        var i :| 0 <= i < |rest| && x in rest[i];
        assert x in ss[i + 1];
      }
      if exists i :: 0 <= i < |ss| && x in ss[i] {
        var i :| 0 <= i < |ss| && x in ss[i];
        if i > 0 {
          assert x in rest[i - 1];
        }
      }
    }
  }

  /** Run each key's step in order and concatenate the rows, stopping at the
      first step that fails. */
  function CollectAll<K, R>(keys: seq<K>, f: K -> Result<seq<R>, Error>): (r: Result<seq<R>, Error>)
    ensures r.Ok? <==> forall k :: k in keys ==> f(k).Ok?
    ensures r.Err? ==> exists k :: k in keys && f(k) == Err(r.error)
  {
    if |keys| == 0 then Ok([])
    else
      match f(keys[0])
      case Err(e) => Err(e)
      case Ok(rows) =>
        match CollectAll(keys[1..], f)
        case Err(e) => Err(e)
        case Ok(rest) => Ok(rows + rest)
  }

  /** The collected rows are exactly the rows of the keys' frames. */
  lemma {:induction false} CollectAllMembers<K, R>(keys: seq<K>, f: K -> Result<seq<R>, Error>)
    ensures CollectAll(keys, f).Ok? ==> forall x :: x in CollectAll(keys, f).value ==> exists k :: k in keys && f(k).Ok? && x in f(k).value
    ensures CollectAll(keys, f).Ok? ==> forall k, x :: k in keys && x in f(k).value ==> x in CollectAll(keys, f).value
  {
    var r := CollectAll(keys, f);
    if |keys| > 0 && r.Ok? {
      var rest := CollectAll(keys[1..], f);
      CollectAllMembers(keys[1..], f);
      assert rest.Ok?;
      assert forall x :: x in rest.value ==> exists k :: k in keys[1..] && f(k).Ok? && x in f(k).value;
      assert forall k, x :: k in keys[1..] && x in f(k).value ==> x in rest.value;
      assert f(keys[0]).Ok? && rest.Ok? && r.value == f(keys[0]).value + rest.value;
      forall x | x in r.value
        ensures exists k :: k in keys && f(k).Ok? && x in f(k).value
      {
        if x in f(keys[0]).value {
          assert keys[0] in keys;
        } else {
          assert x in rest.value;
          var k :| k in keys[1..] && f(k).Ok? && x in f(k).value;
          assert k in keys;
        }
      }
      forall k, x | k in keys && x in f(k).value
        ensures x in r.value
      {
        if k == keys[0] {
          assert x in f(keys[0]).value;
        } else {
          assert k in keys[1..];
          assert x in rest.value;
        }
      }
    }
  }

  /** Every error collected is an error some key's step reports. */
  lemma CollectAllErr<K, R>(keys: seq<K>, f: K -> Result<seq<R>, Error>, allowed: Error -> bool)
    requires forall k :: k in keys && f(k).Err? ==> allowed(f(k).error)
    ensures CollectAll(keys, f).Err? ==> allowed(CollectAll(keys, f).error)
  {
    var r := CollectAll(keys, f);
    if r.Err? {
      var k :| k in keys && f(k) == Err(r.error);
    }
  }

  /** Keys whose steps agree give the same collected result. */
  lemma {:induction false} CollectAllExt<K, R>(keys: seq<K>, f: K -> Result<seq<R>, Error>, g: K -> Result<seq<R>, Error>)
    requires forall k :: k in keys ==> f(k) == g(k)
    ensures CollectAll(keys, f) == CollectAll(keys, g)
  {
    if |keys| > 0 {
      CollectAllExt(keys[1..], f, g);
    }
  }

  /** One row per year of `years`, in order, stopping at the first year whose
      row cannot be computed. */
  function FrameOrFail<R>(years: seq<int>, row: int -> Result<R, Error>): (r: Result<seq<R>, Error>)
    ensures r.Ok? <==> forall y :: y in years ==> row(y).Ok?
    ensures r.Ok? ==> |r.value| == |years|
    ensures r.Ok? ==> forall i :: 0 <= i < |years| ==> row(years[i]) == Ok(r.value[i])
    ensures r.Err? ==> exists y :: y in years && row(y) == Err(r.error)
  {
    if |years| == 0 then Ok([])
    else
      var y := years[0];
      assert y in years;
      if row(y).Err? then Err(row(y).error)
      else
        var rest := FrameOrFail(years[1..], row);
        if rest.Err? then rest
        else Ok([row(y).value] + rest.value)
  }

  lemma {:induction false} FrameOrFailExt<R>(years: seq<int>, row: int -> Result<R, Error>, row': int -> Result<R, Error>)
    requires forall y :: y in years ==> row(y) == row'(y)
    ensures FrameOrFail(years, row) == FrameOrFail(years, row')
  {
    if |years| > 0 {
      assert years[0] in years;
      FrameOrFailExt(years[1..], row, row');
    }
  }

  // ---------------------------------------------------------------------------
  // Loops that append to the table they read
  // ---------------------------------------------------------------------------

  /** `for k in keys: table = table.append(step(k, table))`, stopping at the
      first failing step. */
  function AppendLoop<K, R>(keys: seq<K>, table: seq<R>, step: (K, seq<R>) -> Result<seq<R>, Error>): (r: Result<seq<R>, Error>)
    ensures r.Ok? ==> |table| <= |r.value| && r.value[..|table|] == table
  {
    if |keys| == 0 then Ok(table)
    else
      match step(keys[0], table)
      case Err(e) => Err(e)
      case Ok(rows) =>
        var r := AppendLoop(keys[1..], table + rows, step);
        assert r.Ok? ==> r.value[..|table|] == (table + rows)[..|table|];
        r
  }

  /** No row of `rows` is one that the step for `k` reads. */
  ghost predicate Untouched<K, R>(touches: (K, R) -> bool, k: K, rows: seq<R>)
  {
    forall i :: 0 <= i < |rows| ==> !touches(k, rows[i])
  }

  /** The step for `k` reads only the rows it touches. */
  ghost predicate LocalStep<K(!new), R(!new)>(step: (K, seq<R>) -> Result<seq<R>, Error>, touches: (K, R) -> bool)
  {
    forall k, t, extra :: Untouched(touches, k, extra) ==> step(k, t + extra) == step(k, t)
  }

  /** The rows the step for one key appends are never read by another key's step. */
  ghost predicate SeparateOutputs<K(!new), R(!new)>(step: (K, seq<R>) -> Result<seq<R>, Error>, touches: (K, R) -> bool)
  {
    forall k, k', t :: k != k' && step(k, t).Ok? ==> Untouched(touches, k', step(k, t).value)
  }

  /** The rows of a batch appended to a table, or the batch's error. */
  function AppendBatch<R>(table: seq<R>, batch: Result<seq<R>, Error>): Result<seq<R>, Error>
  {
    if batch.Ok? then Ok(table + batch.value) else Err(batch.error)
  }

  /** Every key's step applied to one fixed table. */
  function AtTable<K, R>(step: (K, seq<R>) -> Result<seq<R>, Error>, table: seq<R>): K -> Result<seq<R>, Error>
  {
    k => step(k, table)
  }

  /** When each step reads only rows of its own key and no step writes rows of
      another key, appending inside the loop gives the same table as computing
      every step from the table the loop started with. */
  lemma {:induction false} AppendLoopIsBatch<K(!new), R(!new)>(keys: seq<K>, base: seq<R>, acc: seq<R>,
                                                   step: (K, seq<R>) -> Result<seq<R>, Error>, touches: (K, R) -> bool)
    requires Distinct(keys)
    requires LocalStep(step, touches) && SeparateOutputs(step, touches)
    requires forall k :: k in keys ==> Untouched(touches, k, acc)
    ensures AppendLoop(keys, base + acc, step).Ok? <==> CollectAll(keys, AtTable(step, base)).Ok?
    ensures AppendLoop(keys, base + acc, step).Ok? ==>
              AppendLoop(keys, base + acc, step).value == base + acc + CollectAll(keys, AtTable(step, base)).value
    ensures AppendLoop(keys, base + acc, step).Err? ==>
              AppendLoop(keys, base + acc, step).error == CollectAll(keys, AtTable(step, base)).error
  {
    if |keys| > 0 {
      var k := keys[0];
      assert k in keys;
      assert Untouched(touches, k, acc);
      assert step(k, base + acc) == step(k, base);
      if step(k, base).Ok? {
        var rows := step(k, base).value;
        forall k' | k' in keys[1..]
          ensures Untouched(touches, k', acc + rows)
        {
          assert k' != k;
          assert k' in keys;
          assert Untouched(touches, k', rows);
          assert Untouched(touches, k', acc);
          forall i | 0 <= i < |acc + rows|
            ensures !touches(k', (acc + rows)[i])
          {
            if i < |acc| {
              assert (acc + rows)[i] == acc[i];
            } else {
              assert (acc + rows)[i] == rows[i - |acc|];
            }
          }
        }
        assert base + acc + rows == base + (acc + rows);
        AppendLoopIsBatch(keys[1..], base, acc + rows, step, touches);
      }
    }
  }
  /** The loop completes when every step it can take succeeds, whatever the table. */
  lemma {:induction false} AppendLoopOk<K(!new), R(!new)>(keys: seq<K>, table: seq<R>, step: (K, seq<R>) -> Result<seq<R>, Error>)
    requires forall k, t :: k in keys ==> step(k, t).Ok?
    ensures AppendLoop(keys, table, step).Ok?
  {
    if |keys| > 0 {
      assert keys[0] in keys;
      AppendLoopOk(keys[1..], table + step(keys[0], table).value, step);
    }
  }

  /** Every error the loop reports is an error some step can report. */
  lemma {:induction false} AppendLoopErr<K(!new), R(!new)>(keys: seq<K>, table: seq<R>, step: (K, seq<R>) -> Result<seq<R>, Error>,
                                              allowed: Error -> bool)
    requires forall k, t :: k in keys && step(k, t).Err? ==> allowed(step(k, t).error)
    ensures AppendLoop(keys, table, step).Err? ==> allowed(AppendLoop(keys, table, step).error)
  {
    if |keys| > 0 {
      assert keys[0] in keys;
      if step(keys[0], table).Ok? {
        AppendLoopErr(keys[1..], table + step(keys[0], table).value, step, allowed);
      }
    }
  }

  /** No step ever reads the rows that any step appends. */
  ghost predicate InertOutputs<K(!new), R(!new)>(step: (K, seq<R>) -> Result<seq<R>, Error>, touches: (K, R) -> bool)
  {
    forall k, k', t :: step(k, t).Ok? ==> Untouched(touches, k', step(k, t).value)
  }

  /** When no step reads what any step appends, the loop is the batch even
      when a key repeats. */
  lemma {:induction false} AppendLoopIsBatchInert<K(!new), R(!new)>(keys: seq<K>, base: seq<R>, acc: seq<R>,
                                                        step: (K, seq<R>) -> Result<seq<R>, Error>, touches: (K, R) -> bool)
    requires LocalStep(step, touches) && InertOutputs(step, touches)
    requires forall k :: k in keys ==> Untouched(touches, k, acc)
    ensures AppendLoop(keys, base + acc, step).Ok? <==> CollectAll(keys, AtTable(step, base)).Ok?
    ensures AppendLoop(keys, base + acc, step).Ok? ==>
              AppendLoop(keys, base + acc, step).value == base + acc + CollectAll(keys, AtTable(step, base)).value
    ensures AppendLoop(keys, base + acc, step).Err? ==>
              AppendLoop(keys, base + acc, step).error == CollectAll(keys, AtTable(step, base)).error
  {
    if |keys| > 0 {
      var k := keys[0];
      assert k in keys;
      assert Untouched(touches, k, acc);
      assert step(k, base + acc) == step(k, base);
      if step(k, base).Ok? {
        var rows := step(k, base).value;
        forall k' | k' in keys[1..]
          ensures Untouched(touches, k', acc + rows)
        {
          assert k' in keys;
          assert Untouched(touches, k', rows);
          assert Untouched(touches, k', acc);
          forall i | 0 <= i < |acc + rows|
            ensures !touches(k', (acc + rows)[i])
          {
            if i < |acc| {
              assert (acc + rows)[i] == acc[i];
            } else {
              assert (acc + rows)[i] == rows[i - |acc|];
            }
          }
        }
        assert base + acc + rows == base + (acc + rows);
        AppendLoopIsBatchInert(keys[1..], base, acc + rows, step, touches);
      }
    }
  }
}
