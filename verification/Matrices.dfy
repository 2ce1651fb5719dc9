/** From the loaded dataset to the delta and class matrices (DAAT-MCS_tuner.py, class `PlotSuite`). */
module Matrices {
  import opened Wrappers
  import opened Metrics
  import ConfigOrder
  import Sorting
  import Strings

  /** The benchmarks running on the three CPUs. */
  datatype Key = Key(b0: string, b1: string, b2: string)

  /** One CPU's measurements: configuration to checkpoints. */
  type Runs = map<string, seq<int>>

  /** Entries for CPUs outside `CPU_SEQUENCE` are never read, so the type has none. */
  type Dataset = map<Key, map<Cpu, Runs>>

  datatype ScopeError = NoEntries | MultipleCpu1(benches: seq<string>)

  /** What `_keys` resolves: the CPU1 benchmark, the rows of the plots, and their columns. */
  datatype Scope = Scope(cpu1: string, benches: seq<string>, cfgs: seq<string>)

  // ---- specification

  predicate Selected(k: Key, b0: string, b1: Option<string>, b2s: Option<set<string>>) {
    && k.b0 == b0
    && (b1.Some? ==> k.b1 == b1.value)
    && (b2s.Some? ==> k.b2 in b2s.value)
  }

  function SelectedKeys(data: Dataset, b0: string, b1: Option<string>, b2s: Option<set<string>>): set<Key> {
    set k | k in data && Selected(k, b0, b1, b2s)
  }

  function ConfigsAt(data: Dataset, keys: set<Key>): set<string> {
    set k, cpu, c | k in keys && k in data && cpu in data[k] && c in data[k][cpu] :: c
  }

  /** What `_keys` must return. */
  ghost function Resolve(data: Dataset, b0: string, b1: Option<string>, b2s: Option<set<string>>)
    : Result<Scope, ScopeError>
  {
    var keys := SelectedKeys(data, b0, b1, b2s);
    var cpu1s := ConfigOrder.Alphabetical(set k | k in keys :: k.b1);
    if keys == {} then Err(NoEntries)
    else if b1.None? && |cpu1s| > 1 then Err(MultipleCpu1(cpu1s))
    else
      assert forall k | k in keys :: k.b1 in cpu1s;
      assert cpu1s != [] by { var k :| k in keys; }
      Ok(Scope(if b1.Some? then b1.value else cpu1s[0],
               ConfigOrder.Alphabetical(set k | k in keys :: k.b2),
               ConfigOrder.Ordered(ConfigsAt(data, keys))))
  }

  /** The runs of one CPU for one benchmark triple, empty when nothing was loaded. */
  function RunsOf(data: Dataset, k: Key, cpu: Cpu): Runs {
    if k in data && cpu in data[k] then data[k][cpu] else map[]
  }

  function MetricsOf(cpu: Cpu, runs: Runs): map<string, real> {
    map c | c in runs && Metric(cpu, runs[c]).Some? :: Metric(cpu, runs[c]).value
  }

  lemma MetricsArePositive(cpu: Cpu, runs: Runs)
    ensures AllPositive(MetricsOf(cpu, runs))
    ensures MetricsOf(cpu, runs) != map[] ==> Best(cpu, MetricsOf(cpu, runs)) > 0.0
  {
    var m := MetricsOf(cpu, runs);
    forall c | c in m ensures m[c] > 0.0 { MetricPositive(cpu, runs[c]); }
    if m != map[] { DeltaRange(cpu, m); }
  }

  function Lookup<T>(m: map<string, T>, cfg: string): Option<T> {
    if cfg in m then Some(m[cfg]) else None
  }

  /** One cell of a delta matrix; `None` is NaN. */
  ghost function DeltaCell(data: Dataset, k: Key, cpu: Cpu, cfg: string): Option<real> {
    var m := MetricsOf(cpu, RunsOf(data, k, cpu));
    MetricsArePositive(cpu, RunsOf(data, k, cpu));
    if cfg in m then Some(Deltas(cpu, m)[cfg]) else None
  }

  function ClassOfCell(d: Option<real>, tau: real, factor: real): Option<nat> {
    if d.Some? then Some(ClassOf(d.value, tau, factor)) else None
  }

  ghost function ClassCell(data: Dataset, k: Key, cpu: Cpu, cfg: string, tol: Tolerances): Option<nat> {
    ClassOfCell(DeltaCell(data, k, cpu, cfg), tol.Tau(cpu), tol.factor)
  }

  ghost predicate IsDeltaMatrix(mat: array2<Option<real>>, data: Dataset, b0: string, s: Scope, cpu: Cpu)
    reads mat
  {
    && mat.Length0 == |s.cfgs| && mat.Length1 == |s.benches|
    && forall i, j | 0 <= i < |s.cfgs| && 0 <= j < |s.benches| ::
         mat[i, j] == DeltaCell(data, Key(b0, s.cpu1, s.benches[j]), cpu, s.cfgs[i])
  }

  ghost predicate IsClassMatrix(mat: array2<Option<nat>>, data: Dataset, b0: string, s: Scope, cpu: Cpu,
                                tol: Tolerances)
    reads mat
  {
    && mat.Length0 == |s.cfgs| && mat.Length1 == |s.benches|
    && forall i, j | 0 <= i < |s.cfgs| && 0 <= j < |s.benches| ::
         mat[i, j] == ClassCell(data, Key(b0, s.cpu1, s.benches[j]), cpu, s.cfgs[i], tol)
  }

  // ---- the class

  class PlotSuite {
    const data: Dataset

    constructor (data: Dataset)
      ensures this.data == data
    {
      this.data := data;
    }

    method Keys(b0: string, b1: Option<string>, b2s: Option<set<string>>) returns (r: Result<Scope, ScopeError>)
      ensures r == Resolve(data, b0, b1, b2s)
    {
      var keys := SelectKeys(b0, b1, b2s);
      if keys == {} {
        return Err(NoEntries);
      }
      var cpu1s := ConfigOrder.SortNames(set k | k in keys :: k.b1);
      if b1.None? && |cpu1s| > 1 {
        return Err(MultipleCpu1(cpu1s));
      }
      assert forall k | k in keys :: k.b1 in cpu1s;
      var cpu1 := if b1.Some? then b1.value else cpu1s[0];
      var benches := ConfigOrder.SortNames(set k | k in keys :: k.b2);
      var cfgSet := ConfigSet(keys);
      var cfgs := ConfigOrder.OrderCfgList(cfgSet);
      r := Ok(Scope(cpu1, benches, cfgs));
    }

    method SelectKeys(b0: string, b1: Option<string>, b2s: Option<set<string>>) returns (keys: set<Key>)
      ensures keys == SelectedKeys(data, b0, b1, b2s)
    {
      keys := {};
      var rest := data.Keys;
      while rest != {}
        invariant rest <= data.Keys
        invariant forall k :: k in keys <==> k in data && k !in rest && Selected(k, b0, b1, b2s)
        decreases |rest|
      {
        var k :| k in rest;
        rest := rest - {k};
        if k.b0 != b0 {
          continue;
        }
        if b1.Some? && k.b1 != b1.value {
          continue;
        }
        if b2s.Some? && k.b2 !in b2s.value {
          continue;
        }
        keys := keys + {k};
      }
    }

    /** The union of the configuration names of the selected entries, CPU by CPU. */
    method ConfigSet(keys: set<Key>) returns (cfgs: set<string>)
      requires keys <= data.Keys
      ensures cfgs == ConfigsAt(data, keys)
    {
      cfgs := {};
      var rest := keys;
      while rest != {}
        invariant rest <= keys
        invariant cfgs == ConfigsAt(data, keys - rest)
        decreases |rest|
      {
        var k :| k in rest;
        ghost var before := cfgs;
        for n := 0 to |CPU_SEQUENCE|
          invariant cfgs == before + set cpu, c | cpu in CPU_SEQUENCE[..n] && c in RunsOf(data, k, cpu) :: c
        {
          cfgs := cfgs + RunsOf(data, k, CPU_SEQUENCE[n]).Keys;
          assert CPU_SEQUENCE[..n + 1] == CPU_SEQUENCE[..n] + [CPU_SEQUENCE[n]];
        }
        assert CPU_SEQUENCE[..|CPU_SEQUENCE|] == CPU_SEQUENCE;
        AddKey(keys - rest, k);
        assert keys - (rest - {k}) == (keys - rest) + {k};
        rest := rest - {k};
      }
      assert keys - rest == keys;
    }

    lemma AddKey(keys: set<Key>, k: Key)
      requires k in data
      ensures ConfigsAt(data, keys + {k}) ==
              ConfigsAt(data, keys) + set cpu, c | cpu in CPU_SEQUENCE && c in RunsOf(data, k, cpu) :: c
    {
      AllCpusListed();
      var more := set cpu, c | cpu in CPU_SEQUENCE && c in RunsOf(data, k, cpu) :: c;
      forall c | c in more ensures c in ConfigsAt(data, keys + {k}) {
        var cpu :| cpu in CPU_SEQUENCE && c in RunsOf(data, k, cpu);
        assert k in keys + {k} && cpu in data[k] && c in data[k][cpu];
      }
      forall c | c in ConfigsAt(data, keys + {k}) ensures c in ConfigsAt(data, keys) + more {
        var k', cpu :| k' in keys + {k} && k' in data && cpu in data[k'] && c in data[k'][cpu];
        if k' == k { assert cpu in CPU_SEQUENCE && c in RunsOf(data, k, cpu); }
      }
    }

    /** The metrics of one column, with the order in which they were stored. */
    method ColumnMetrics(cpu: Cpu, runs: Runs) returns (order: seq<string>, values: map<string, real>)
      ensures values == MetricsOf(cpu, runs)
      ensures forall c :: c in order <==> c in values
    {
      order, values := [], map[];
      var rest := runs.Keys;
      while rest != {}
        invariant rest <= runs.Keys
        invariant forall c :: c in order <==> c in values
        invariant forall c :: c in values <==> c in runs && c !in rest && Metric(cpu, runs[c]).Some?
        invariant forall c | c in values :: Metric(cpu, runs[c]) == Some(values[c])
        decreases |rest|
      {
        var c :| c in rest;
        rest := rest - {c};
        var m := Metric(cpu, runs[c]);
        if m.Some? {
          values := values[c := m.value];
          order := order + [c];
        }
      }
    }

    method BuildMatrices(b0: string, b1: Option<string>, b2s: Option<set<string>>, tol: Tolerances)
      returns (r: Result<Scope, ScopeError>,
               delta: map<Cpu, array2<Option<real>>>, klass: map<Cpu, array2<Option<nat>>>)
      ensures r == Resolve(data, b0, b1, b2s)
      ensures r.Ok? ==> forall cpu: Cpu :: cpu in delta && cpu in klass
                          && IsDeltaMatrix(delta[cpu], data, b0, r.value, cpu)
                          && IsClassMatrix(klass[cpu], data, b0, r.value, cpu, tol)
    {
      delta, klass := map[], map[];
      r := Keys(b0, b1, b2s);
      if r.Err? {
        return;
      }
      for n := 0 to |CPU_SEQUENCE|
        invariant forall k | 0 <= k < n :: var cpu := CPU_SEQUENCE[k];
                    && cpu in delta && cpu in klass
                    && IsDeltaMatrix(delta[cpu], data, b0, r.value, cpu)
                    && IsClassMatrix(klass[cpu], data, b0, r.value, cpu, tol)
      {
        var cpu := CPU_SEQUENCE[n];
        var deltaMat, classMat := FillBoth(b0, r.value, cpu, tol);
        delta := delta[cpu := deltaMat];
        klass := klass[cpu := classMat];
      }
      AllCpusListed();
      forall cpu: Cpu
        ensures cpu in delta && cpu in klass
        ensures IsDeltaMatrix(delta[cpu], data, b0, r.value, cpu)
        ensures IsClassMatrix(klass[cpu], data, b0, r.value, cpu, tol)
      {
        assert CPU_SEQUENCE[Position(cpu)] == cpu;
      }
    }

    /** One benchmark's column: no entries at all when nothing was measured. */
    method ColumnBoth(key: Key, cpu: Cpu, tol: Tolerances) returns (dmap: map<string, real>, kmap: map<string, nat>)
      ensures forall cfg :: Lookup(dmap, cfg) == DeltaCell(data, key, cpu, cfg)
      ensures forall cfg :: Lookup(kmap, cfg) == ClassCell(data, key, cpu, cfg, tol)
    {
      dmap, kmap := map[], map[];
      var order, values := ColumnMetrics(cpu, RunsOf(data, key, cpu));
      if |values| == 0 {
        return;
      }
      MetricsArePositive(cpu, RunsOf(data, key, cpu));
      var _, _, d, k := ComputeBaselineDeltaClass(cpu, order, values, tol.Tau(cpu), tol.factor);
      dmap, kmap := d, k;
    }

    /** One CPU's pass of `build_matrices`. */
    method FillBoth(b0: string, s: Scope, cpu: Cpu, tol: Tolerances)
      returns (deltaMat: array2<Option<real>>, classMat: array2<Option<nat>>)
      ensures IsDeltaMatrix(deltaMat, data, b0, s, cpu)
      ensures IsClassMatrix(classMat, data, b0, s, cpu, tol)
      ensures fresh(deltaMat) && fresh(classMat)
    {
      var n, m := |s.cfgs|, |s.benches|;
      deltaMat := new Option<real>[n, m]((_, _) => None);
      classMat := new Option<nat>[n, m]((_, _) => None);
      for j := 0 to m
        invariant DeltasUpTo(deltaMat, data, b0, s, cpu, j)
        invariant ClassesUpTo(classMat, data, b0, s, cpu, tol, j)
      {
        var key := Key(b0, s.cpu1, s.benches[j]);
        var dmap, kmap := ColumnBoth(key, cpu, tol);
        PutColumn(deltaMat, j, s.cfgs, dmap);
        PutColumn(classMat, j, s.cfgs, kmap);
      }
    }

    /** The class-only builder: its own loops and its own class computation. */
    method BuildClassMatrices(b0: string, b1: Option<string>, b2s: Option<set<string>>, tol: Tolerances)
      returns (r: Result<Scope, ScopeError>, klass: map<Cpu, array2<Option<nat>>>)
      ensures r == Resolve(data, b0, b1, b2s)
      ensures r.Ok? ==> forall cpu: Cpu :: cpu in klass && IsClassMatrix(klass[cpu], data, b0, r.value, cpu, tol)
    {
      klass := map[];
      r := Keys(b0, b1, b2s);
      if r.Err? {
        return;
      }
      for n := 0 to |CPU_SEQUENCE|
        invariant forall k | 0 <= k < n :: var cpu := CPU_SEQUENCE[k];
                    cpu in klass && IsClassMatrix(klass[cpu], data, b0, r.value, cpu, tol)
      {
        var classMat := FillClasses(b0, r.value, CPU_SEQUENCE[n], tol);
        klass := klass[CPU_SEQUENCE[n] := classMat];
      }
      AllCpusListed();
      forall cpu: Cpu ensures cpu in klass && IsClassMatrix(klass[cpu], data, b0, r.value, cpu, tol) {
        assert CPU_SEQUENCE[Position(cpu)] == cpu;
      }
    }

    method ColumnClasses(key: Key, cpu: Cpu, tol: Tolerances) returns (kmap: map<string, nat>)
      ensures forall cfg :: Lookup(kmap, cfg) == ClassCell(data, key, cpu, cfg, tol)
    {
      kmap := map[];
      var order, values := ColumnMetrics(cpu, RunsOf(data, key, cpu));
      if |values| == 0 {
        return;
      }
      MetricsArePositive(cpu, RunsOf(data, key, cpu));
      kmap := ComputeClass(cpu, order, values, tol.Tau(cpu), tol.factor);
    }

    method FillClasses(b0: string, s: Scope, cpu: Cpu, tol: Tolerances) returns (classMat: array2<Option<nat>>)
      ensures IsClassMatrix(classMat, data, b0, s, cpu, tol)
      ensures fresh(classMat)
    {
      var n, m := |s.cfgs|, |s.benches|;
      classMat := new Option<nat>[n, m]((_, _) => None);
      for j := 0 to m
        invariant ClassesUpTo(classMat, data, b0, s, cpu, tol, j)
      {
        var key := Key(b0, s.cpu1, s.benches[j]);
        var kmap := ColumnClasses(key, cpu, tol);
        PutColumn(classMat, j, s.cfgs, kmap);
      }
    }
  }

  /** Columns before `j` are filled in, the others still NaN. */
  ghost predicate DeltasUpTo(mat: array2<Option<real>>, data: Dataset, b0: string, s: Scope, cpu: Cpu, j: nat)
    reads mat
  {
    && mat.Length0 == |s.cfgs| && mat.Length1 == |s.benches|
    && forall i, j' | 0 <= i < |s.cfgs| && 0 <= j' < |s.benches| ::
         mat[i, j'] == if j' < j then DeltaCell(data, Key(b0, s.cpu1, s.benches[j']), cpu, s.cfgs[i]) else None
  }

  ghost predicate ClassesUpTo(mat: array2<Option<nat>>, data: Dataset, b0: string, s: Scope, cpu: Cpu,
                              tol: Tolerances, j: nat)
    reads mat
  {
    && mat.Length0 == |s.cfgs| && mat.Length1 == |s.benches|
    && forall i, j' | 0 <= i < |s.cfgs| && 0 <= j' < |s.benches| ::
         mat[i, j'] == if j' < j then ClassCell(data, Key(b0, s.cpu1, s.benches[j']), cpu, s.cfgs[i], tol) else None
  }

  /** Copy a per-configuration dictionary into column `j`, leaving NaN where it has no entry. */
  method PutColumn<T>(mat: array2<Option<T>>, j: nat, cfgs: seq<string>, col: map<string, T>)
    requires mat.Length0 == |cfgs| && j < mat.Length1
    modifies mat
    ensures forall i, j' | 0 <= i < mat.Length0 && 0 <= j' < mat.Length1 ::
              mat[i, j'] == if j' == j && cfgs[i] in col then Lookup(col, cfgs[i]) else old(mat[i, j'])
  {
    for i := 0 to |cfgs|
      invariant forall i', j' | 0 <= i' < mat.Length0 && 0 <= j' < mat.Length1 ::
                  mat[i', j'] == if i' < i && j' == j && cfgs[i'] in col then Lookup(col, cfgs[i'])
                                 else old(mat[i', j'])
    {
      if cfgs[i] in col {
        mat[i, j] := Some(col[cfgs[i]]);
      }
    }
  }

  function Position(cpu: Cpu): nat {
    match cpu case CPU0 => 0 case CPU1 => 1 case CPU2 => 2
  }

  lemma AllCpusListed()
    ensures forall cpu: Cpu :: Position(cpu) < |CPU_SEQUENCE| && CPU_SEQUENCE[Position(cpu)] == cpu
    ensures forall cpu: Cpu :: cpu in CPU_SEQUENCE
  {
    forall cpu: Cpu ensures Position(cpu) < |CPU_SEQUENCE| && CPU_SEQUENCE[Position(cpu)] == cpu {
      match cpu case CPU0 => case CPU1 => case CPU2 =>
    }
    forall cpu: Cpu ensures cpu in CPU_SEQUENCE { assert CPU_SEQUENCE[Position(cpu)] == cpu; }
  }

  // ---- laws of the matrices

  /** What resolving a scope means.  It fails exactly when nothing is selected, or when no CPU1 benchmark
      was given and two different ones are selected, which it then lists; otherwise every selected entry
      runs the resolved CPU1 benchmark, the columns are exactly the selected CPU2 benchmarks in alphabetical
      order, and the rows exactly the configurations some selected entry has a run for, in their order. */
  lemma ResolveMeaning(data: Dataset, b0: string, b1: Option<string>, b2s: Option<set<string>>)
    ensures forall k :: k in SelectedKeys(data, b0, b1, b2s) <==>
              k in data && k.b0 == b0 && (b1.None? || b1.value == k.b1) && (b2s.None? || k.b2 in b2s.value)
    ensures var keys, r := SelectedKeys(data, b0, b1, b2s), Resolve(data, b0, b1, b2s);
            r.Err? && keys != {} ==>
              && r.error.MultipleCpu1?
              && (forall b :: b in r.error.benches <==> exists k :: k in keys && k.b1 == b)
              && (forall i, j | 0 <= i < j < |r.error.benches| :: Strings.Less(r.error.benches[i], r.error.benches[j]))
    ensures var r := Resolve(data, b0, b1, b2s);
            r.Ok? ==>
              && (forall i, j | 0 <= i < j < |r.value.benches| :: Strings.Less(r.value.benches[i], r.value.benches[j]))
              && (forall i, j | 0 <= i < j < |r.value.cfgs| :: ConfigOrder.Before(r.value.cfgs[i], r.value.cfgs[j]))
    ensures var keys, r := SelectedKeys(data, b0, b1, b2s), Resolve(data, b0, b1, b2s);
            && (r == Err(NoEntries) <==> keys == {})
            && (r.Err? <==> keys == {} || (b1.None? && exists k, k' | k in keys && k' in keys :: k.b1 != k'.b1))
            && (r.Ok? ==>
                  && (forall k | k in keys :: k.b0 == b0 && k.b1 == r.value.cpu1)
                  && (forall b :: b in r.value.benches <==> Key(b0, r.value.cpu1, b) in keys)
                  && (forall c :: c in r.value.cfgs <==>
                      exists k, cpu | k in keys && cpu in data[k] :: c in data[k][cpu]))
  {
    var keys := SelectedKeys(data, b0, b1, b2s);
    var names := set k | k in keys :: k.b1;
    var cpu1s := ConfigOrder.Alphabetical(names);
    if keys != {} {
      var k0 :| k0 in keys;
      assert k0.b1 in names && k0.b1 in cpu1s;
      assert forall b :: b in cpu1s <==> b in names;
      TwoNames(keys, names, cpu1s);
      if Resolve(data, b0, b1, b2s).Ok? {
        var s := Resolve(data, b0, b1, b2s).value;
        forall k | k in keys ensures k.b1 == s.cpu1 {
          assert k.b1 in names;
        }
        forall b ensures b in s.benches <==> Key(b0, s.cpu1, b) in keys {
          BenchListed(keys, b0, s, b);
        }
        forall c ensures c in s.cfgs <==> exists k, cpu | k in keys && cpu in data[k] :: c in data[k][cpu] {
          assert c in s.cfgs <==> c in ConfigsAt(data, keys);
        }
      }
    }
  }

  lemma TwoNames(keys: set<Key>, names: set<string>, sorted: seq<string>)
    requires names == (set k | k in keys :: k.b1) && Sorting.IsOrdering(Strings.Less, names, sorted)
    ensures |sorted| > 1 <==> exists k, k' | k in keys && k' in keys :: k.b1 != k'.b1
  {
    if |sorted| > 1 {
      assert sorted[0] in names && sorted[1] in names;
      var k :| k in keys && k.b1 == sorted[0];
      var k' :| k' in keys && k'.b1 == sorted[1];
      Strings.LessIrreflexive(sorted[0]);
      assert k.b1 != k'.b1;
    }
    if k, k' :| k in keys && k' in keys && k.b1 != k'.b1 {
      assert k.b1 in names && k'.b1 in names && k.b1 in sorted && k'.b1 in sorted;
    }
  }

  lemma BenchListed(keys: set<Key>, b0: string, s: Scope, b: string)
    requires forall k | k in keys :: k.b0 == b0 && k.b1 == s.cpu1
    requires s.benches == ConfigOrder.Alphabetical(set k | k in keys :: k.b2)
    ensures b in s.benches <==> Key(b0, s.cpu1, b) in keys
  {
    if b in s.benches {
      assert b in (set k | k in keys :: k.b2);
      var k :| k in keys && k.b2 == b;
      assert k == Key(b0, s.cpu1, b);
    }
    if Key(b0, s.cpu1, b) in keys {
      assert Key(b0, s.cpu1, b).b2 in (set k | k in keys :: k.b2);
    }
  }

  /** The two builders agree: both are pinned to the same cells, so any two results that meet their
      postconditions for one dataset and one set of tolerances are equal entry by entry, and a class
      is finite exactly where the delta is. */
  lemma BuildersAgree(data: Dataset, b0: string, s: Scope, cpu: Cpu, tol: Tolerances,
                      delta: array2<Option<real>>, klass: array2<Option<nat>>, klass': array2<Option<nat>>)
    requires IsDeltaMatrix(delta, data, b0, s, cpu)
    requires IsClassMatrix(klass, data, b0, s, cpu, tol)
    requires IsClassMatrix(klass', data, b0, s, cpu, tol)
    ensures klass.Length0 == klass'.Length0 == delta.Length0
    ensures klass.Length1 == klass'.Length1 == delta.Length1
    ensures forall i, j | 0 <= i < klass.Length0 && 0 <= j < klass.Length1 :: klass[i, j] == klass'[i, j]
    ensures forall i, j | 0 <= i < klass.Length0 && 0 <= j < klass.Length1 :: klass[i, j].Some? <==> delta[i, j].Some?
    ensures forall i, j | 0 <= i < klass.Length0 && 0 <= j < klass.Length1 ::
              klass[i, j].Some? ==> klass[i, j].value <= 2
  {
  }

  /** What it means for the two builders to agree on one CPU. */
  ghost predicate SameClasses(delta: array2<Option<real>>, klass: array2<Option<nat>>, klass': array2<Option<nat>>)
    reads delta, klass, klass'
  {
    && klass.Length0 == klass'.Length0 == delta.Length0 && klass.Length1 == klass'.Length1 == delta.Length1
    && forall i, j | 0 <= i < klass.Length0 && 0 <= j < klass.Length1 ::
         klass[i, j] == klass'[i, j] && (klass[i, j].Some? <==> delta[i, j].Some?)
  }

  /** Running both builders: they resolve the same scope, or fail alike, and fill the same classes. */
  method RunBothBuilders(suite: PlotSuite, b0: string, b1: Option<string>, b2s: Option<set<string>>, tol: Tolerances)
    returns (r: Result<Scope, ScopeError>, delta: map<Cpu, array2<Option<real>>>, klass: map<Cpu, array2<Option<nat>>>,
             r': Result<Scope, ScopeError>, klass': map<Cpu, array2<Option<nat>>>)
    ensures r == r' == Resolve(suite.data, b0, b1, b2s)
    ensures r.Ok? ==> forall cpu: Cpu :: cpu in delta && cpu in klass && cpu in klass'
                        && IsDeltaMatrix(delta[cpu], suite.data, b0, r.value, cpu)
                        && IsClassMatrix(klass'[cpu], suite.data, b0, r.value, cpu, tol)
                        && SameClasses(delta[cpu], klass[cpu], klass'[cpu])
  {
    r, delta, klass := suite.BuildMatrices(b0, b1, b2s, tol);
    r', klass' := suite.BuildClassMatrices(b0, b1, b2s, tol);
    if r.Ok? {
      forall cpu: Cpu ensures SameClasses(delta[cpu], klass[cpu], klass'[cpu]) {
        BuildersAgree(suite.data, b0, r.value, cpu, tol, delta[cpu], klass[cpu], klass'[cpu]);
      }
    }
  }

  /** A cell is filled exactly when its run has a positive checkpoint; its delta is then at least 0, and
      below 100 on the CPUs judged by progress. */
  lemma CellRange(data: Dataset, k: Key, cpu: Cpu, cfg: string)
    ensures DeltaCell(data, k, cpu, cfg).Some? <==>
            cfg in RunsOf(data, k, cpu) && exists x | x in RunsOf(data, k, cpu)[cfg] :: x > 0
    ensures DeltaCell(data, k, cpu, cfg).Some? ==> DeltaCell(data, k, cpu, cfg).value >= 0.0
    ensures DeltaCell(data, k, cpu, cfg).Some? && cpu != CPU0 ==> DeltaCell(data, k, cpu, cfg).value < 100.0
  {
    var runs := RunsOf(data, k, cpu);
    var m := MetricsOf(cpu, runs);
    if cfg in runs {
      MetricPositive(cpu, runs[cfg]);
    }
    if cfg in m {
      MetricsArePositive(cpu, runs);
      DeltaRange(cpu, m);
    }
  }

  /** What a cell holds, in terms of the checkpoints: the delta by which its metric is worse than the best
      metric of the column, and the class of that delta. */
  lemma CellMeaning(data: Dataset, k: Key, cpu: Cpu, cfg: string, tol: Tolerances)
    requires DeltaCell(data, k, cpu, cfg).Some?
    ensures ClassCell(data, k, cpu, cfg, tol).Some?
    ensures var d := DeltaCell(data, k, cpu, cfg).value;
            && IsClass(ClassCell(data, k, cpu, cfg, tol).value, d, tol.Tau(cpu), tol.factor)
            && exists best :: IsBestRun(cpu, RunsOf(data, k, cpu), best)
                              && IsDelta(cpu, d, Metric(cpu, RunsOf(data, k, cpu)[cfg]).value,
                                         Metric(cpu, RunsOf(data, k, cpu)[best]).value)
  {
    var runs := RunsOf(data, k, cpu);
    var m := MetricsOf(cpu, runs);
    MetricsArePositive(cpu, runs);
    var b := Best(cpu, m);
    var best :| best in m && m[best] == b;
    DeltaMeaning(cpu, m[cfg], b);
    assert IsBestRun(cpu, runs, best) by {
      forall c | c in runs && Metric(cpu, runs[c]).Some?
        ensures if cpu == CPU0 then m[best] <= Metric(cpu, runs[c]).value else m[best] >= Metric(cpu, runs[c]).value
      {
        assert c in m;
      }
    }
  }

  /** The run with the least time on CPU0, the most progress on the other CPUs. */
  ghost predicate IsBestRun(cpu: Cpu, runs: Runs, best: string) {
    && best in runs && Metric(cpu, runs[best]).Some?
    && forall c | c in runs && Metric(cpu, runs[c]).Some? ::
         if cpu == CPU0 then Metric(cpu, runs[best]).value <= Metric(cpu, runs[c]).value
         else Metric(cpu, runs[best]).value >= Metric(cpu, runs[c]).value
  }

  /** Loading further configurations for a benchmark keeps every cell that was there and never lowers
      its delta or its class: an accepted cell can be lost this way, never gained. */
  lemma AddingRunsNeverLowers(data: Dataset, data': Dataset, k: Key, cpu: Cpu, cfg: string, tol: Tolerances)
    requires var runs, runs' := RunsOf(data, k, cpu), RunsOf(data', k, cpu);
             forall c | c in runs :: c in runs' && runs'[c] == runs[c]
    requires DeltaCell(data, k, cpu, cfg).Some?
    ensures DeltaCell(data', k, cpu, cfg).Some?
    ensures DeltaCell(data, k, cpu, cfg).value <= DeltaCell(data', k, cpu, cfg).value
    ensures ClassCell(data, k, cpu, cfg, tol).value <= ClassCell(data', k, cpu, cfg, tol).value
  {
    var m, m' := MetricsOf(cpu, RunsOf(data, k, cpu)), MetricsOf(cpu, RunsOf(data', k, cpu));
    MetricsArePositive(cpu, RunsOf(data', k, cpu));
    MoreConfigsNeverLower(cpu, m, m', tol.Tau(cpu), tol.factor);
    ClassMonotone(DeltaCell(data, k, cpu, cfg).value, DeltaCell(data', k, cpu, cfg).value, tol.Tau(cpu), tol.factor);
  }
}
