/** From checkpoints to metrics, percentage deltas and classes (DAAT-MCS_tuner.py, "Metrics / delta
    model").  Metrics, deltas and tolerances are exact reals: float rounding is abstracted away. */
module Metrics {
  import opened Wrappers

  datatype Cpu = CPU0 | CPU1 | CPU2

  const CPU_SEQUENCE: seq<Cpu> := [CPU0, CPU1, CPU2]

  /** The per-CPU tolerances (percent) and the factor that widens them. */
  datatype Tolerances = Tolerances(tau0: real, tau1: real, tau2: real, factor: real) {
    function Tau(cpu: Cpu): real {
      match cpu
      case CPU0 => tau0
      case CPU1 => tau1
      case CPU2 => tau2
    }

    /** The widened tolerance. */
    function Wide(cpu: Cpu): real {
      factor * Tau(cpu)
    }
  }

  // ---- metric_from_checkpoints

  function Cleaned(checkpoints: seq<int>): seq<int> {
    if checkpoints == [] then []
    else (if checkpoints[0] > 0 then [checkpoints[0]] else []) + Cleaned(checkpoints[1..])
  }

  function Sum(s: seq<int>): int {
    if s == [] then 0 else s[0] + Sum(s[1..])
  }

  /** CPU0 is timed; the other CPUs are judged by how many checkpoints they reached. */
  function Metric(cpu: Cpu, checkpoints: seq<int>): Option<real> {
    var clean := Cleaned(checkpoints);
    if clean == [] then None
    else if cpu == CPU0 then Some(Sum(clean) as real / 1000.0)
    else Some(|clean| as real)
  }

  lemma {:induction false} CleanedPositive(checkpoints: seq<int>)
    ensures forall x | x in Cleaned(checkpoints) :: x > 0 && x in checkpoints
    ensures Cleaned(checkpoints) == [] <==> forall x | x in checkpoints :: x <= 0
  {
    if checkpoints != [] {
      var rest := checkpoints[1..];
      CleanedPositive(rest);
      assert checkpoints == [checkpoints[0]] + rest;
      assert forall x | x in checkpoints :: x == checkpoints[0] || x in rest;
      assert forall x | x in rest :: x in checkpoints;
      assert checkpoints[0] in checkpoints;
    }
  }

  lemma {:induction false} SumPositive(s: seq<int>)
    requires forall x | x in s :: x > 0
    ensures Sum(s) >= |s|
  {
    if s != [] {
      assert forall x | x in s[1..] :: x in s;
      assert s[0] in s;
      SumPositive(s[1..]);
    }
  }

  /** A metric is missing exactly when no checkpoint is positive, and is strictly positive otherwise,
      so it can be divided by. */
  lemma MetricPositive(cpu: Cpu, checkpoints: seq<int>)
    ensures Metric(cpu, checkpoints).None? <==> forall x | x in checkpoints :: x <= 0
    ensures Metric(cpu, checkpoints).Some? ==> Metric(cpu, checkpoints).value > 0.0
  {
    CleanedPositive(checkpoints);
    SumPositive(Cleaned(checkpoints));
  }

  /** What one positive checkpoint adds to a metric: its milliseconds on CPU0, one on the other CPUs. */
  predicate AddsTo(cpu: Cpu, x: int, before: Option<real>, after: Option<real>) {
    && after.Some?
    && (cpu == CPU0 ==> after.value == (if before.Some? then before.value else 0.0) + x as real / 1000.0)
    && (cpu != CPU0 ==> after.value == (if before.Some? then before.value else 0.0) + 1.0)
  }

  lemma {:induction false} CleanedConcat(a: seq<int>, b: seq<int>)
    ensures Cleaned(a + b) == Cleaned(a) + Cleaned(b)
  {
    if a == [] {
      assert a + b == b;
    } else {
      assert (a + b)[1..] == a[1..] + b;
      CleanedConcat(a[1..], b);
    }
  }

  lemma {:induction false} SumConcat(a: seq<int>, b: seq<int>)
    ensures Sum(a + b) == Sum(a) + Sum(b)
  {
    if a == [] {
      assert a + b == b;
    } else {
      assert (a + b)[1..] == a[1..] + b;
      SumConcat(a[1..], b);
    }
  }

  /** One more checkpoint, anywhere in the list: a positive one adds its share, any other changes nothing. */
  lemma OneMoreCheckpoint(cpu: Cpu, a: seq<int>, x: int, b: seq<int>)
    ensures x <= 0 ==> Metric(cpu, a + [x] + b) == Metric(cpu, a + b)
    ensures x > 0 ==> AddsTo(cpu, x, Metric(cpu, a + b), Metric(cpu, a + [x] + b))
  {
    CleanedConcat(a + [x], b);
    CleanedConcat(a, [x]);
    CleanedConcat(a, b);
    var p, q := Cleaned(a), Cleaned(b);
    assert Cleaned([x]) == if x > 0 then [x] else [];
    if x > 0 {
      SumConcat(p + [x], q);
      SumConcat(p, [x]);
      SumConcat(p, q);
      assert Sum([x]) == x;
    } else {
      assert p + [] == p;
    }
  }

  /** Where the last checkpoint of one order stands in another. */
  lemma FindLast(s: seq<int>, t: seq<int>) returns (a: seq<int>, b: seq<int>)
    requires s != [] && multiset(s) == multiset(t)
    ensures t == a + [s[|s| - 1]] + b
    ensures multiset(s[..|s| - 1]) == multiset(a + b)
  {
    var init, x := s[..|s| - 1], s[|s| - 1];
    assert s == init + [x];
    assert x in multiset(t);
    var i :| 0 <= i < |t| && t[i] == x;
    a, b := t[..i], t[i + 1..];
    assert t == a + [x] + b;
    assert multiset(t) == multiset(a + b) + multiset{x};
    assert multiset(init) == multiset(s) - multiset{x};
    assert multiset(a + b) == multiset(t) - multiset{x};
  }

  lemma AddedAlike(cpu: Cpu, init: seq<int>, x: int, a: seq<int>, b: seq<int>)
    requires Metric(cpu, init) == Metric(cpu, a + b)
    ensures Metric(cpu, init + [x]) == Metric(cpu, a + [x] + b)
  {
    OneMoreCheckpoint(cpu, a, x, b);
    OneMoreCheckpoint(cpu, init, x, []);
    assert init + [x] + [] == init + [x] && init + [] == init;
  }

  /** The order of the checkpoints does not matter. */
  lemma {:induction false} MetricOrder(cpu: Cpu, s: seq<int>, t: seq<int>)
    requires multiset(s) == multiset(t)
    ensures Metric(cpu, s) == Metric(cpu, t)
    decreases |s|
  {
    if s == [] {
      assert |multiset(t)| == 0;
    } else {
      var a, b := FindLast(s, t);
      var init, x := s[..|s| - 1], s[|s| - 1];
      MetricOrder(cpu, init, a + b);
      AddedAlike(cpu, init, x, a, b);
      assert init + [x] == s;
    }
  }

  // ---- baseline, delta, class

  /** CPU0 is better when smaller (time), the others when larger (progress). */
  predicate AtLeastAsGood(cpu: Cpu, x: real, y: real) {
    if cpu == CPU0 then x <= y else x >= y
  }

  ghost predicate IsBest(cpu: Cpu, values: map<string, real>, b: real) {
    && (exists c | c in values :: values[c] == b)
    && (forall c | c in values :: AtLeastAsGood(cpu, b, values[c]))
  }

  lemma {:induction false} BestExists(cpu: Cpu, values: map<string, real>)
    requires values != map[]
    ensures exists b :: IsBest(cpu, values, b)
    decreases |values|
  {
    var c :| c in values;
    var rest := values - {c};
    if rest == map[] {
      assert forall x | x in values :: x == c || x in rest;
      assert IsBest(cpu, values, values[c]);
    } else {
      BestExists(cpu, rest);
      var b :| IsBest(cpu, rest, b);
      var k :| k in rest && rest[k] == b;
      assert forall x | x in values :: x == c || x in rest;
      if AtLeastAsGood(cpu, b, values[c]) {
        assert values[k] == b;
        assert IsBest(cpu, values, b);
      } else {
        assert IsBest(cpu, values, values[c]);
      }
    }
  }

  /** The baseline: the best metric of the column.  It is a function of the values alone. */
  ghost function Best(cpu: Cpu, values: map<string, real>): (b: real)
    requires values != map[]
    ensures IsBest(cpu, values, b)
  {
    BestExists(cpu, values);
    var b :| IsBest(cpu, values, b);
    b
  }

  predicate AllPositive(values: map<string, real>) {
    forall c | c in values :: values[c] > 0.0
  }

  function Delta(cpu: Cpu, v: real, baseline: real): real
    requires baseline != 0.0
  {
    if cpu == CPU0 then 100.0 * (v - baseline) / baseline
    else 100.0 * (baseline - v) / baseline
  }

  function ClassOf(d: real, tau: real, factor: real): nat {
    if d <= tau then 0 else if d <= factor * tau then 1 else 2
  }

  /** What a class says of a delta: 0 inside the tolerance, 1 between it and the widened one, 2 outside. */
  predicate IsClass(k: nat, d: real, tau: real, factor: real) {
    && k <= 2
    && (k == 0 <==> d <= tau)
    && (k == 1 <==> tau < d <= factor * tau)
  }

  /** What a delta says of a metric: the percentage by which it is worse than the baseline. */
  predicate IsDelta(cpu: Cpu, d: real, v: real, baseline: real) {
    if cpu == CPU0 then 100.0 * v == baseline * (100.0 + d) else 100.0 * v == baseline * (100.0 - d)
  }

  lemma DeltaMeaning(cpu: Cpu, v: real, baseline: real)
    requires baseline != 0.0
    ensures IsDelta(cpu, Delta(cpu, v, baseline), v, baseline)
  {
    var q := v / baseline;
    assert q * baseline == v;
    DeltaAsRatio(cpu, v, baseline);
    ScaledBy(baseline, q, v, Delta(cpu, v, baseline));
  }

  lemma ScaledBy(b: real, q: real, v: real, d: real)
    requires q * b == v
    ensures d == 100.0 * q - 100.0 ==> 100.0 * v == b * (100.0 + d)
    ensures d == 100.0 - 100.0 * q ==> 100.0 * v == b * (100.0 - d)
  {
  }

  /** The whole delta dictionary. */
  ghost function Deltas(cpu: Cpu, values: map<string, real>): map<string, real>
    requires values != map[] ==> Best(cpu, values) != 0.0
  {
    map c | c in values :: Delta(cpu, values[c], Best(cpu, values))
  }

  /** The whole class dictionary. */
  ghost function Classes(cpu: Cpu, values: map<string, real>, tau: real, factor: real): map<string, nat>
    requires values != map[] ==> Best(cpu, values) != 0.0
  {
    map c | c in values :: ClassOf(Deltas(cpu, values)[c], tau, factor)
  }

  /** `np.argmin` / `np.argmax`: the first best index. */
  method ArgBest(cpu: Cpu, arr: array<real>) returns (k: nat)
    requires arr.Length > 0
    ensures k < arr.Length
    ensures forall i | 0 <= i < arr.Length :: AtLeastAsGood(cpu, arr[k], arr[i])
    ensures forall i | 0 <= i < k :: arr[i] != arr[k]
  {
    k := 0;
    for n := 1 to arr.Length
      invariant k < n
      invariant forall i | 0 <= i < n :: AtLeastAsGood(cpu, arr[k], arr[i])
      invariant forall i | 0 <= i < k :: arr[i] != arr[k]
    {
      if !AtLeastAsGood(cpu, arr[k], arr[n]) {
        k := n;
      }
    }
  }

  /** `cfgs` is the insertion order of the `values` dictionary.  It decides which of several equally
      good configurations is named as the baseline, and nothing else. */
  method ComputeBaselineDeltaClass(cpu: Cpu, cfgs: seq<string>, values: map<string, real>, tau: real, factor: real)
    returns (baseline: real, baselineCfg: string, delta: map<string, real>, klass: map<string, nat>)
    requires values != map[] && Best(cpu, values) != 0.0
    requires forall c :: c in cfgs <==> c in values
    ensures baseline == Best(cpu, values)
    ensures exists k :: 0 <= k < |cfgs| && cfgs[k] == baselineCfg && values[cfgs[k]] == baseline
                        && forall i | 0 <= i < k :: values[cfgs[i]] != baseline
    ensures delta == Deltas(cpu, values)
    ensures klass == Classes(cpu, values, tau, factor)
    ensures forall c | c in values :: if cpu == CPU0 then baseline <= values[c] else baseline >= values[c]
    ensures delta.Keys == klass.Keys == values.Keys
    ensures forall c | c in values :: IsDelta(cpu, delta[c], values[c], baseline)
    ensures forall c | c in values :: IsClass(klass[c], delta[c], tau, factor)
  {
    var k := FirstBest(cpu, cfgs, values);
    baseline, baselineCfg := values[cfgs[k]], cfgs[k];
    delta, klass := map[], map[];
    for n := 0 to |cfgs|
      invariant forall c :: c in delta <==> c in cfgs[..n]
      invariant forall c :: c in klass <==> c in cfgs[..n]
      invariant forall c | c in delta :: delta[c] == Delta(cpu, values[c], baseline)
      invariant forall c | c in klass :: klass[c] == ClassOf(Delta(cpu, values[c], baseline), tau, factor)
    {
      var cfg := cfgs[n];
      var d := Delta(cpu, values[cfg], baseline);
      delta := delta[cfg := d];
      var c := 2;
      if d <= tau {
        c := 0;
      } else if d <= factor * tau {
        c := 1;
      }
      klass := klass[cfg := c];
      assert cfgs[..n + 1] == cfgs[..n] + [cfg];
    }
    assert cfgs[..|cfgs|] == cfgs;
    forall c | c in values ensures IsDelta(cpu, delta[c], values[c], baseline) {
      DeltaMeaning(cpu, values[c], baseline);
    }
  }

  /** The second, separately written copy of the same computation, keeping only the classes. */
  method ComputeClass(cpu: Cpu, cfgs: seq<string>, values: map<string, real>, tau: real, factor: real)
    returns (klass: map<string, nat>)
    requires values != map[] && Best(cpu, values) != 0.0
    requires forall c :: c in cfgs <==> c in values
    ensures klass == Classes(cpu, values, tau, factor)
    ensures klass.Keys == values.Keys
    ensures forall c | c in values :: IsClass(klass[c], Deltas(cpu, values)[c], tau, factor)
  {
    var k := FirstBest(cpu, cfgs, values);
    var baseline := values[cfgs[k]];
    klass := map[];
    for n := 0 to |cfgs|
      invariant forall c :: c in klass <==> c in cfgs[..n]
      invariant forall c | c in klass :: klass[c] == ClassOf(Delta(cpu, values[c], baseline), tau, factor)
    {
      var cfg := cfgs[n];
      var d := Delta(cpu, values[cfg], baseline);
      klass := klass[cfg := if d <= tau then 0 else if d <= factor * tau then 1 else 2];
      assert cfgs[..n + 1] == cfgs[..n] + [cfg];
    }
    assert cfgs[..|cfgs|] == cfgs;
  }

  /** The value list of a dictionary and its first best index. */
  method FirstBest(cpu: Cpu, cfgs: seq<string>, values: map<string, real>) returns (k: nat)
    requires values != map[]
    requires forall c :: c in cfgs <==> c in values
    ensures k < |cfgs| && values[cfgs[k]] == Best(cpu, values)
    ensures forall i | 0 <= i < k :: values[cfgs[i]] != Best(cpu, values)
  {
    ghost var some :| some in values;
    assert some in cfgs;
    var arr := new real[|cfgs|](i requires 0 <= i < |cfgs| => values[cfgs[i]]);
    assert forall i | 0 <= i < |cfgs| :: arr[i] == values[cfgs[i]];
    k := ArgBest(cpu, arr);
    forall i | 0 <= i < |cfgs|
      ensures AtLeastAsGood(cpu, values[cfgs[k]], values[cfgs[i]])
      ensures i < k ==> values[cfgs[i]] != values[cfgs[k]]
    {
      assert arr[i] == values[cfgs[i]];
    }
    FirstIndexIsBest(cpu, cfgs, values, k);
  }

  lemma FirstIndexIsBest(cpu: Cpu, cfgs: seq<string>, values: map<string, real>, k: nat)
    requires k < |cfgs|
    requires forall c :: c in cfgs <==> c in values
    requires forall i | 0 <= i < |cfgs| :: AtLeastAsGood(cpu, values[cfgs[k]], values[cfgs[i]])
    ensures values != map[] && values[cfgs[k]] == Best(cpu, values)
  {
    assert cfgs[k] in values;
    var b := Best(cpu, values);
    var c :| c in values && values[c] == b;
    assert c in cfgs;
    var i :| 0 <= i < |cfgs| && cfgs[i] == c;
  }

  // ---- laws

  lemma DivideMonotone(v: real, b: real, b': real)
    requires v >= 0.0 && 0.0 < b' <= b
    ensures v / b <= v / b'
  {
    var q, q' := v / b, v / b';
    assert q * b == v && q' * b' == v;
    assert q >= 0.0;
    assert (q' - q) * b' == q * (b - b');
    assert q * (b - b') >= 0.0;
  }

  lemma DeltaAsRatio(cpu: Cpu, v: real, b: real)
    requires b != 0.0
    ensures Delta(cpu, v, b) == if cpu == CPU0 then 100.0 * (v / b) - 100.0 else 100.0 - 100.0 * (v / b)
  {
    var q := v / b;
    assert v == q * b;
    if cpu == CPU0 {
      assert 100.0 * (v - b) == (100.0 * q - 100.0) * b;
    } else {
      assert 100.0 * (b - v) == (100.0 - 100.0 * q) * b;
    }
  }

  /** With positive metrics the division is defined, every delta is at least 0, the best configuration
      has delta 0, and on the CPUs judged by progress no delta reaches 100. */
  lemma DeltaRange(cpu: Cpu, values: map<string, real>)
    requires values != map[] && AllPositive(values)
    ensures Best(cpu, values) > 0.0
    ensures forall c | c in values :: Deltas(cpu, values)[c] >= 0.0
    ensures exists c | c in values :: Deltas(cpu, values)[c] == 0.0
    ensures cpu != CPU0 ==> forall c | c in values :: Deltas(cpu, values)[c] < 100.0
    ensures forall c | c in values :: Deltas(cpu, values)[c] == 0.0 <==> values[c] == Best(cpu, values)
  {
    var b := Best(cpu, values);
    forall c | c in values
      ensures Delta(cpu, values[c], b) >= 0.0
      ensures cpu != CPU0 ==> Delta(cpu, values[c], b) < 100.0
      ensures Delta(cpu, values[c], b) == 0.0 <==> values[c] == b
    {
      DeltaAsRatio(cpu, values[c], b);
      var q := values[c] / b;
      assert q * b == values[c];
      if cpu == CPU0 { assert q >= 1.0; } else { assert 0.0 < q <= 1.0; }
    }
    var k :| k in values && values[k] == b;
    assert Deltas(cpu, values)[k] == 0.0;
  }

  lemma BestUnique(cpu: Cpu, values: map<string, real>, b: real)
    requires values != map[] && IsBest(cpu, values, b)
    ensures b == Best(cpu, values)
  {
    var k :| k in values && values[k] == b;
    var m :| m in values && values[m] == Best(cpu, values);
    assert AtLeastAsGood(cpu, b, values[m]) && AtLeastAsGood(cpu, Best(cpu, values), values[k]);
  }

  function Scaled(values: map<string, real>, s: real): map<string, real> {
    map c | c in values :: s * values[c]
  }

  lemma ScaledIsBest(cpu: Cpu, values: map<string, real>, scaled: map<string, real>, s: real, b: real, b': real)
    requires AllPositive(values) && s > 0.0 && scaled == Scaled(values, s) && IsBest(cpu, values, b) && b' == s * b
    ensures AllPositive(scaled) && IsBest(cpu, scaled, b') && scaled != map[]
  {
    var k :| k in values && values[k] == b;
    assert k in scaled && scaled[k] == b';
    forall c | c in scaled ensures AtLeastAsGood(cpu, b', scaled[c]) && scaled[c] > 0.0 {
      ScaleOrder(cpu, b, values[c], s, b', scaled[c]);
    }
  }

  lemma ScaledBest(cpu: Cpu, values: map<string, real>, s: real)
    requires values != map[] && AllPositive(values) && s > 0.0
    ensures Scaled(values, s) != map[] && AllPositive(Scaled(values, s))
    ensures Best(cpu, Scaled(values, s)) == s * Best(cpu, values) > 0.0 && Best(cpu, values) > 0.0
  {
    var b, scaled := Best(cpu, values), Scaled(values, s);
    ScaledIsBest(cpu, values, scaled, s, b, s * b);
    BestUnique(cpu, scaled, s * b);
    assert Best(cpu, scaled) == s * b;
    var k :| k in values && values[k] == b;
    ScaleOrder(cpu, b, b, s, s * b, s * b);
  }

  lemma ScaleOrder(cpu: Cpu, b: real, v: real, s: real, b': real, v': real)
    requires s > 0.0 && v > 0.0 && AtLeastAsGood(cpu, b, v) && b' == s * b && v' == s * v
    ensures AtLeastAsGood(cpu, b', v') && v' > 0.0
  {
    var d := v - b;
    assert s * d == s * v - s * b;
    assert d >= 0.0 ==> s * d >= 0.0;
    assert d <= 0.0 ==> s * d <= 0.0;
  }

  lemma ScaleDelta(cpu: Cpu, v: real, b: real, s: real, v': real, b': real)
    requires s > 0.0 && b > 0.0 && v' == s * v && b' == s * b && b' > 0.0
    ensures Delta(cpu, v', b') == Delta(cpu, v, b)
  {
    DeltaAsRatio(cpu, v, b);
    DeltaAsRatio(cpu, v', b');
    var q := v / b;
    assert v == q * b;
    assert v' == q * b';
  }

  /** Deltas and classes do not change when a whole column is scaled, so the unit of time (the division
      by 1000) cannot matter. */
  lemma ScaleInvariant(cpu: Cpu, values: map<string, real>, s: real, tau: real, factor: real)
    requires values != map[] && AllPositive(values) && s > 0.0
    ensures Scaled(values, s) != map[] && AllPositive(Scaled(values, s))
    ensures Best(cpu, Scaled(values, s)) == s * Best(cpu, values) > 0.0 && Best(cpu, values) > 0.0
    ensures Deltas(cpu, Scaled(values, s)) == Deltas(cpu, values)
    ensures Classes(cpu, Scaled(values, s), tau, factor) == Classes(cpu, values, tau, factor)
  {
    ScaledBest(cpu, values, s);
    var scaled := Scaled(values, s);
    ScaledDeltas(cpu, values, scaled, s, Best(cpu, values), Best(cpu, scaled));
    assert Deltas(cpu, scaled) == Deltas(cpu, values);
  }

  lemma ScaledDeltas(cpu: Cpu, values: map<string, real>, scaled: map<string, real>, s: real, b: real, b': real)
    requires s > 0.0 && b > 0.0 && b' == s * b && b' > 0.0 && scaled == Scaled(values, s)
    ensures forall c | c in values :: Delta(cpu, scaled[c], b') == Delta(cpu, values[c], b)
  {
    forall c | c in values ensures Delta(cpu, scaled[c], b') == Delta(cpu, values[c], b) {
      ScaleDelta(cpu, values[c], b, s, scaled[c], b');
    }
  }

  /** Measuring more configurations can only move the baseline: no delta and no class of a
      configuration already there goes down, in either direction of "better". */
  lemma MoreConfigsNeverLower(cpu: Cpu, values: map<string, real>, more: map<string, real>, tau: real, factor: real)
    requires values != map[] && AllPositive(more)
    requires forall c | c in values :: c in more && more[c] == values[c]
    ensures more != map[] && AllPositive(values) && Best(cpu, values) > 0.0 && Best(cpu, more) > 0.0
    ensures forall c | c in values :: Deltas(cpu, values)[c] <= Deltas(cpu, more)[c]
    ensures forall c | c in values :: Classes(cpu, values, tau, factor)[c] <= Classes(cpu, more, tau, factor)[c]
  {
    var k :| k in values && values[k] == Best(cpu, values);
    assert k in more;
    var b, b' := Best(cpu, values), Best(cpu, more);
    assert AtLeastAsGood(cpu, b', b);
    forall c | c in values
      ensures Delta(cpu, values[c], b) <= Delta(cpu, values[c], b')
    {
      DeltaAsRatio(cpu, values[c], b);
      DeltaAsRatio(cpu, values[c], b');
      if cpu == CPU0 { DivideMonotone(values[c], b, b'); } else { DivideMonotone(values[c], b', b); }
    }
    forall c | c in values
      ensures ClassOf(Deltas(cpu, values)[c], tau, factor) <= ClassOf(Deltas(cpu, more)[c], tau, factor)
    {
      ClassMonotone(Deltas(cpu, values)[c], Deltas(cpu, more)[c], tau, factor);
    }
  }

  lemma ClassMonotone(d: real, d': real, tau: real, factor: real)
    requires d <= d'
    ensures ClassOf(d, tau, factor) <= ClassOf(d', tau, factor)
  {
  }
}
