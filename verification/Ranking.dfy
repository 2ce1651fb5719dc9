/** The autotune ranking (DAAT-MCS_tuner.py, `detect_configs_in_scope`, `rank_configs_for_autotune`). */
module Ranking {
  import opened Wrappers
  import opened Metrics
  import opened Matrices
  import ConfigOrder
  import Sorting
  import Strings

  datatype Row = Row(bench: string, cfg: string, caption: string, rate: real,
                     mean0: Option<real>, mean1: Option<real>, mean2: Option<real>, worst: Option<real>,
                     total: nat, accepted: nat)

  // ---- numpy reductions over one matrix row

  function Count(bs: seq<bool>): (n: nat)
    ensures n <= |bs|
  {
    if bs == [] then 0 else Count(bs[..|bs| - 1]) + (if bs[|bs| - 1] then 1 else 0)
  }

  function AllFinite(c0: seq<Option<nat>>, c1: seq<Option<nat>>, c2: seq<Option<nat>>): seq<bool>
    requires |c0| == |c1| == |c2|
  {
    seq(|c0|, j requires 0 <= j < |c0| => c0[j].Some? && c1[j].Some? && c2[j].Some?)
  }

  function AllAccepted(c0: seq<Option<nat>>, c1: seq<Option<nat>>, c2: seq<Option<nat>>): seq<bool>
    requires |c0| == |c1| == |c2|
  {
    seq(|c0|, j requires 0 <= j < |c0| =>
      c0[j].Some? && c1[j].Some? && c2[j].Some? && c0[j].value <= 1 && c1[j].value <= 1 && c2[j].value <= 1)
  }

  function Defined(ds: seq<Option<real>>): seq<real> {
    if ds == [] then [] else Defined(ds[..|ds| - 1]) + (if ds[|ds| - 1].Some? then [ds[|ds| - 1].value] else [])
  }

  function SumOf(xs: seq<real>): real {
    if xs == [] then 0.0 else SumOf(xs[..|xs| - 1]) + xs[|xs| - 1]
  }

  function NanMean(ds: seq<Option<real>>): Option<real> {
    var xs := Defined(ds);
    if xs == [] then None else Some(SumOf(xs) / |xs| as real)
  }

  function NanMax2(a: Option<real>, b: Option<real>): Option<real> {
    if a.None? then b else if b.None? then a else if a.value >= b.value then a else b
  }

  function Rate(accepted: nat, total: nat): real {
    if total == 0 then 0.0 else 100.0 * accepted as real / total as real
  }

  function RowFrom(bench: string, cfg: string,
                   c0: seq<Option<nat>>, c1: seq<Option<nat>>, c2: seq<Option<nat>>,
                   d0: seq<Option<real>>, d1: seq<Option<real>>, d2: seq<Option<real>>): Row
    requires |c0| == |c1| == |c2|
  {
    var total, accepted := Count(AllFinite(c0, c1, c2)), Count(AllAccepted(c0, c1, c2));
    var m0, m1, m2 := NanMean(d0), NanMean(d1), NanMean(d2);
    Row(bench, cfg, ConfigOrder.Label(cfg), Rate(accepted, total), m0, m1, m2, NanMax2(NanMax2(m0, m1), m2), total,
        accepted)
  }

  // ---- specification

  ghost function DeltaRow(data: Dataset, b0: string, s: Scope, cpu: Cpu, cfg: string): (r: seq<Option<real>>)
    ensures |r| == |s.benches|
    ensures forall j | 0 <= j < |r| :: r[j] == DeltaCell(data, Key(b0, s.cpu1, s.benches[j]), cpu, cfg)
  {
    seq(|s.benches|, j requires 0 <= j < |s.benches| => DeltaCell(data, Key(b0, s.cpu1, s.benches[j]), cpu, cfg))
  }

  ghost function ClassRow(data: Dataset, b0: string, s: Scope, cpu: Cpu, cfg: string, tol: Tolerances)
    : (r: seq<Option<nat>>)
    ensures |r| == |s.benches|
    ensures forall j | 0 <= j < |r| :: r[j] == ClassCell(data, Key(b0, s.cpu1, s.benches[j]), cpu, cfg, tol)
  {
    seq(|s.benches|, j requires 0 <= j < |s.benches| => ClassCell(data, Key(b0, s.cpu1, s.benches[j]), cpu, cfg, tol))
  }

  /** The row a configuration must get. */
  ghost function RowOf(data: Dataset, b0: string, s: Scope, cfg: string, tol: Tolerances): Row {
    RowFrom(b0, cfg,
            ClassRow(data, b0, s, CPU0, cfg, tol), ClassRow(data, b0, s, CPU1, cfg, tol),
            ClassRow(data, b0, s, CPU2, cfg, tol),
            DeltaRow(data, b0, s, CPU0, cfg), DeltaRow(data, b0, s, CPU1, cfg), DeltaRow(data, b0, s, CPU2, cfg))
  }

  ghost function RowsOf(data: Dataset, b0: string, s: Scope, tol: Tolerances): (rows: seq<Row>)
    ensures |rows| == |s.cfgs|
    ensures forall i | 0 <= i < |rows| :: rows[i] == RowOf(data, b0, s, s.cfgs[i], tol)
  {
    seq(|s.cfgs|, i requires 0 <= i < |s.cfgs| => RowOf(data, b0, s, s.cfgs[i], tol))
  }

  ghost function ResolveOne(data: Dataset, b0: string, cpu1: string, cpu2s: set<string>): Result<Scope, ScopeError> {
    Resolve(data, b0, Some(cpu1), Some(cpu2s))
  }

  /** All rows, benchmark by benchmark; the first benchmark without data ends the run. */
  ghost function AllRows(data: Dataset, cpu0s: seq<string>, cpu1: string, cpu2s: set<string>, tol: Tolerances)
    : Result<seq<Row>, ScopeError>
  {
    if cpu0s == [] then Ok([])
    else
      var n := |cpu0s| - 1;
      var before := AllRows(data, cpu0s[..n], cpu1, cpu2s, tol);
      var s := ResolveOne(data, cpu0s[n], cpu1, cpu2s);
      if before.Err? then before
      else if s.Err? then Err(s.error)
      else Ok(before.value + RowsOf(data, cpu0s[n], s.value, tol))
  }

  predicate NanEqual(a: Option<real>, b: Option<real>) { a.Some? && b.Some? && a.value == b.value }
  predicate NanLess(a: Option<real>, b: Option<real>) { a.Some? && b.Some? && a.value < b.value }

  /** Python's `<` on the key tuples (-rate, mean0, worst, cfg): the first unequal component decides,
      and a NaN is unequal to everything yet never smaller. */
  predicate RowBefore(a: Row, b: Row) {
    if a.rate != b.rate then a.rate > b.rate
    else if !NanEqual(a.mean0, b.mean0) then NanLess(a.mean0, b.mean0)
    else if !NanEqual(a.worst, b.worst) then NanLess(a.worst, b.worst)
    else Strings.Less(a.cfg, b.cfg)
  }

  // ---- the code

  function MatrixRow<T>(mat: array2<T>, i: nat): (r: seq<T>)
    requires i < mat.Length0
    reads mat
    ensures |r| == mat.Length1
    ensures forall j | 0 <= j < mat.Length1 :: r[j] == mat[i, j]
  {
    seq(mat.Length1, j requires 0 <= j < mat.Length1 reads mat => mat[i, j])
  }

  method RankConfigs(suite: PlotSuite, cpu0s: seq<string>, cpu1: string, cpu2s: set<string>, tol: Tolerances)
    returns (r: Result<seq<Row>, ScopeError>)
    ensures var all := AllRows(suite.data, cpu0s, cpu1, cpu2s, tol);
            r == if all.Err? then all else Ok(Sorting.Sort(RowBefore, all.value))
  {
    var rows: seq<Row> := [];
    for n := 0 to |cpu0s|
      invariant AllRows(suite.data, cpu0s[..n], cpu1, cpu2s, tol) == Ok(rows)
    {
      assert cpu0s[..n + 1][..n] == cpu0s[..n];
      var s, more := BenchRows(suite, cpu0s[n], cpu1, cpu2s, tol);
      if s.Err? {
        FirstErrorStays(suite.data, cpu0s, n + 1, cpu1, cpu2s, tol);
        return Err(s.error);
      }
      rows := rows + more;
    }
    assert cpu0s[..|cpu0s|] == cpu0s;
    r := Ok(Sorting.Sort(RowBefore, rows));
  }

  lemma {:induction false} FirstErrorStays(data: Dataset, cpu0s: seq<string>, n: nat, cpu1: string,
                                           cpu2s: set<string>, tol: Tolerances)
    requires n <= |cpu0s| && AllRows(data, cpu0s[..n], cpu1, cpu2s, tol).Err?
    ensures AllRows(data, cpu0s, cpu1, cpu2s, tol) == AllRows(data, cpu0s[..n], cpu1, cpu2s, tol)
    decreases |cpu0s|
  {
    if n == |cpu0s| {
      assert cpu0s[..n] == cpu0s;
    } else {
      var init := cpu0s[..|cpu0s| - 1];
      assert init[..n] == cpu0s[..n];
      FirstErrorStays(data, init, n, cpu1, cpu2s, tol);
    }
  }

  /** The rows of one CPU0 benchmark. */
  method BenchRows(suite: PlotSuite, b0: string, cpu1: string, cpu2s: set<string>, tol: Tolerances)
    returns (s: Result<Scope, ScopeError>, rows: seq<Row>)
    ensures s == ResolveOne(suite.data, b0, cpu1, cpu2s)
    ensures s.Ok? ==> rows == RowsOf(suite.data, b0, s.value, tol)
  {
    rows := [];
    var delta, klass;
    s, delta, klass := suite.BuildMatrices(b0, Some(cpu1), Some(cpu2s), tol);
    if s.Err? {
      return;
    }
    rows := CollectRows(suite.data, b0, s.value, tol, klass[CPU0], klass[CPU1], klass[CPU2], delta[CPU0], delta[CPU1],
                        delta[CPU2]);
  }

  method CollectRows(ghost data: Dataset, b0: string, s: Scope, ghost tol: Tolerances,
                     c0: array2<Option<nat>>, c1: array2<Option<nat>>, c2: array2<Option<nat>>,
                     d0: array2<Option<real>>, d1: array2<Option<real>>, d2: array2<Option<real>>)
    returns (rows: seq<Row>)
    requires IsClassMatrix(c0, data, b0, s, CPU0, tol) && IsClassMatrix(c1, data, b0, s, CPU1, tol)
    requires IsClassMatrix(c2, data, b0, s, CPU2, tol)
    requires IsDeltaMatrix(d0, data, b0, s, CPU0) && IsDeltaMatrix(d1, data, b0, s, CPU1)
    requires IsDeltaMatrix(d2, data, b0, s, CPU2)
    ensures rows == RowsOf(data, b0, s, tol)
  {
    rows := [];
    ghost var expected := RowsOf(data, b0, s, tol);
    for i := 0 to |s.cfgs|
      invariant rows == expected[..i]
    {
      var row := CollectRow(data, b0, s, i, tol, c0, c1, c2, d0, d1, d2);
      rows := rows + [row];
    }
  }

  /** The row of configuration `i`. */
  method CollectRow(ghost data: Dataset, b0: string, s: Scope, i: nat, ghost tol: Tolerances,
                    c0: array2<Option<nat>>, c1: array2<Option<nat>>, c2: array2<Option<nat>>,
                    d0: array2<Option<real>>, d1: array2<Option<real>>, d2: array2<Option<real>>)
    returns (row: Row)
    requires i < |s.cfgs|
    requires IsClassMatrix(c0, data, b0, s, CPU0, tol) && IsClassMatrix(c1, data, b0, s, CPU1, tol)
    requires IsClassMatrix(c2, data, b0, s, CPU2, tol)
    requires IsDeltaMatrix(d0, data, b0, s, CPU0) && IsDeltaMatrix(d1, data, b0, s, CPU1)
    requires IsDeltaMatrix(d2, data, b0, s, CPU2)
    ensures row == RowOf(data, b0, s, s.cfgs[i], tol)
  {
    row := RowFrom(b0, s.cfgs[i], MatrixRow(c0, i), MatrixRow(c1, i), MatrixRow(c2, i),
                   MatrixRow(d0, i), MatrixRow(d1, i), MatrixRow(d2, i));
    RowMatches(data, b0, s, i, tol, c0, c1, c2, d0, d1, d2);
  }

  lemma RowMatches(data: Dataset, b0: string, s: Scope, i: nat, tol: Tolerances,
                   c0: array2<Option<nat>>, c1: array2<Option<nat>>, c2: array2<Option<nat>>,
                   d0: array2<Option<real>>, d1: array2<Option<real>>, d2: array2<Option<real>>)
    requires i < |s.cfgs|
    requires IsClassMatrix(c0, data, b0, s, CPU0, tol) && IsClassMatrix(c1, data, b0, s, CPU1, tol)
    requires IsClassMatrix(c2, data, b0, s, CPU2, tol)
    requires IsDeltaMatrix(d0, data, b0, s, CPU0) && IsDeltaMatrix(d1, data, b0, s, CPU1)
    requires IsDeltaMatrix(d2, data, b0, s, CPU2)
    ensures RowFrom(b0, s.cfgs[i], MatrixRow(c0, i), MatrixRow(c1, i), MatrixRow(c2, i), MatrixRow(d0, i),
                    MatrixRow(d1, i), MatrixRow(d2, i))
            == RowOf(data, b0, s, s.cfgs[i], tol)
  {
    var cfg := s.cfgs[i];
    assert MatrixRow(c0, i) == ClassRow(data, b0, s, CPU0, cfg, tol);
    assert MatrixRow(c1, i) == ClassRow(data, b0, s, CPU1, cfg, tol);
    assert MatrixRow(c2, i) == ClassRow(data, b0, s, CPU2, cfg, tol);
    assert MatrixRow(d0, i) == DeltaRow(data, b0, s, CPU0, cfg);
    assert MatrixRow(d1, i) == DeltaRow(data, b0, s, CPU1, cfg);
    assert MatrixRow(d2, i) == DeltaRow(data, b0, s, CPU2, cfg);
  }

  /** The keys `detect_configs_in_scope` looks at. */
  function DetectKeys(data: Dataset, cpu0s: seq<string>, cpu1: string, cpu2s: set<string>): set<Key> {
    set k | k in data && k.b0 in cpu0s && k.b1 == cpu1 && k.b2 in cpu2s
  }

  method DetectConfigs(suite: PlotSuite, cpu0s: seq<string>, cpu1: string, cpu2s: set<string>)
    returns (cfgs: seq<string>)
    ensures cfgs == ConfigOrder.Ordered(ConfigsAt(suite.data, DetectKeys(suite.data, cpu0s, cpu1, cpu2s)))
  {
    var keys: set<Key> := {};
    var rest := suite.data.Keys;
    while rest != {}
      invariant rest <= suite.data.Keys
      invariant keys == set k | k in suite.data && k !in rest && k.b0 in cpu0s && k.b1 == cpu1 && k.b2 in cpu2s
      decreases |rest|
    {
      var k :| k in rest;
      rest := rest - {k};
      if k.b0 !in cpu0s {
        continue;
      }
      if k.b1 != cpu1 {
        continue;
      }
      if k.b2 !in cpu2s {
        continue;
      }
      keys := keys + {k};
    }
    assert keys == DetectKeys(suite.data, cpu0s, cpu1, cpu2s);
    var found := suite.ConfigSet(keys);
    cfgs := ConfigOrder.OrderCfgList(found);
  }
}
