/** What the ranking promises: sane rows, the effect of the tolerances, and the order of the result. */
module RankingLaws {
  import opened Lists
  import opened Wrappers
  import opened Metrics
  import opened Matrices
  import opened Ranking
  import opened Arithmetic
  import ConfigOrder
  import Sorting
  import Strings

  // ---- counting and averaging

  lemma {:induction false} CountMonotone(bs: seq<bool>, cs: seq<bool>)
    requires |bs| == |cs|
    requires forall j | 0 <= j < |bs| :: bs[j] ==> cs[j]
    ensures Count(bs) <= Count(cs)
  {
    if bs != [] { CountMonotone(bs[..|bs| - 1], cs[..|cs| - 1]); }
  }

  lemma {:induction false} CountWitness(bs: seq<bool>)
    ensures Count(bs) > 0 <==> exists j :: 0 <= j < |bs| && bs[j]
  {
    if bs != [] {
      var n := |bs| - 1;
      CountWitness(bs[..n]);
      if Count(bs[..n]) > 0 {
        var j :| 0 <= j < n && bs[..n][j];
        assert bs[j];
      }
      if exists j :: 0 <= j < |bs| && bs[j] {
        var j :| 0 <= j < |bs| && bs[j];
        assert j < n ==> bs[..n][j];
      }
    }
  }

  lemma {:induction false} DefinedNonempty(ds: seq<Option<real>>, j: nat)
    requires j < |ds| && ds[j].Some?
    ensures Defined(ds) != []
  {
    var n := |ds| - 1;
    if j < n { DefinedNonempty(ds[..n], j); }
  }

  lemma {:induction false} DefinedSum(ds: seq<Option<real>>)
    requires forall j | 0 <= j < |ds| && ds[j].Some? :: ds[j].value >= 0.0
    ensures SumOf(Defined(ds)) >= 0.0
  {
    if ds != [] {
      var n := |ds| - 1;
      DefinedSum(ds[..n]);
      var xs := Defined(ds[..n]);
      if ds[n].Some? { assert (xs + [ds[n].value])[..|xs|] == xs; } else { assert xs + [] == xs; }
    }
  }

  // ---- every row

  ghost predicate SaneCounts(r: Row) {
    r.accepted <= r.total && 0.0 <= r.rate <= 100.0 && (r.rate > 0.0 <==> r.accepted > 0)
  }

  ghost predicate SaneMeans(r: Row) {
    && (r.accepted > 0 ==> r.mean0.Some? && r.mean1.Some? && r.mean2.Some?)
    && (r.worst.None? <==> r.mean0.None? && r.mean1.None? && r.mean2.None?)
    && (forall m | m in [r.mean0, r.mean1, r.mean2] && m.Some? :: r.worst.Some? && 0.0 <= m.value <= r.worst.value)
  }

  ghost predicate WellFormed(r: Row) {
    SaneCounts(r) && SaneMeans(r)
  }

  lemma RateBounds(accepted: nat, total: nat)
    requires accepted <= total
    ensures 0.0 <= Rate(accepted, total) <= 100.0
    ensures Rate(accepted, total) > 0.0 <==> accepted > 0
  {
    if total > 0 {
      var a, t := accepted as real, total as real;
      var q := Quotient(100.0 * a, t);
      assert accepted == 0 ==> q * t == 0.0;
      AtMostByScaling(q, 100.0, t, 100.0 * a);
    }
  }

  lemma MeanFacts(ds: seq<Option<real>>)
    requires forall j | 0 <= j < |ds| && ds[j].Some? :: ds[j].value >= 0.0
    ensures NanMean(ds).Some? ==> NanMean(ds).value >= 0.0
  {
    DefinedSum(ds);
  }

  lemma RowFromWellFormed(bench: string, cfg: string,
                          c0: seq<Option<nat>>, c1: seq<Option<nat>>, c2: seq<Option<nat>>,
                          d0: seq<Option<real>>, d1: seq<Option<real>>, d2: seq<Option<real>>)
    requires |c0| == |c1| == |c2| == |d0| == |d1| == |d2|
    requires forall j | 0 <= j < |c0| :: c0[j].Some? ==> d0[j].Some?
    requires forall j | 0 <= j < |c0| :: c1[j].Some? ==> d1[j].Some?
    requires forall j | 0 <= j < |c0| :: c2[j].Some? ==> d2[j].Some?
    requires forall ds: seq<Option<real>>, j | ds in [d0, d1, d2] && 0 <= j < |ds| && ds[j].Some? :: ds[j].value >= 0.0
    ensures WellFormed(RowFrom(bench, cfg, c0, c1, c2, d0, d1, d2))
  {
    CountsAreSane(bench, cfg, c0, c1, c2, d0, d1, d2);
    assert d0 in [d0, d1, d2] && d1 in [d0, d1, d2] && d2 in [d0, d1, d2];
    MeanFacts(d0);
    MeanFacts(d1);
    MeanFacts(d2);
    AcceptedHasMeans(c0, c1, c2, d0, d1, d2);
    WorstIsLargest(RowFrom(bench, cfg, c0, c1, c2, d0, d1, d2));
  }

  lemma CountsAreSane(bench: string, cfg: string,
                      c0: seq<Option<nat>>, c1: seq<Option<nat>>, c2: seq<Option<nat>>,
                      d0: seq<Option<real>>, d1: seq<Option<real>>, d2: seq<Option<real>>)
    requires |c0| == |c1| == |c2|
    ensures SaneCounts(RowFrom(bench, cfg, c0, c1, c2, d0, d1, d2))
  {
    var finite, ok := AllFinite(c0, c1, c2), AllAccepted(c0, c1, c2);
    CountMonotone(ok, finite);
    RateBounds(Count(ok), Count(finite));
  }

  lemma WorstIsLargest(r: Row)
    requires r.accepted > 0 ==> r.mean0.Some? && r.mean1.Some? && r.mean2.Some?
    requires r.worst == NanMax2(NanMax2(r.mean0, r.mean1), r.mean2)
    requires r.mean0.Some? ==> r.mean0.value >= 0.0
    requires r.mean1.Some? ==> r.mean1.value >= 0.0
    requires r.mean2.Some? ==> r.mean2.value >= 0.0
    ensures SaneMeans(r)
  {
  }

  lemma AcceptedHasMeans(c0: seq<Option<nat>>, c1: seq<Option<nat>>, c2: seq<Option<nat>>,
                         d0: seq<Option<real>>, d1: seq<Option<real>>, d2: seq<Option<real>>)
    requires |c0| == |c1| == |c2| == |d0| == |d1| == |d2|
    requires forall j | 0 <= j < |c0| :: c0[j].Some? ==> d0[j].Some?
    requires forall j | 0 <= j < |c0| :: c1[j].Some? ==> d1[j].Some?
    requires forall j | 0 <= j < |c0| :: c2[j].Some? ==> d2[j].Some?
    ensures Count(AllAccepted(c0, c1, c2)) > 0 ==> NanMean(d0).Some? && NanMean(d1).Some? && NanMean(d2).Some?
  {
    var ok := AllAccepted(c0, c1, c2);
    CountWitness(ok);
    if Count(ok) > 0 {
      var j :| 0 <= j < |ok| && ok[j];
      DefinedNonempty(d0, j);
      DefinedNonempty(d1, j);
      DefinedNonempty(d2, j);
    }
  }

  /** Never more accepted than counted, a rate between 0 and 100, and a row with a positive rate has all
      its means; `worst` is the largest of the means that exist. */
  lemma RowsAreWellFormed(data: Dataset, b0: string, s: Scope, cfg: string, tol: Tolerances)
    ensures WellFormed(RowOf(data, b0, s, cfg, tol))
  {
    forall cpu: Cpu, j | 0 <= j < |s.benches| && DeltaRow(data, b0, s, cpu, cfg)[j].Some?
      ensures DeltaRow(data, b0, s, cpu, cfg)[j].value >= 0.0
    {
      CellRange(data, Key(b0, s.cpu1, s.benches[j]), cpu, cfg);
    }
    RowFromWellFormed(b0, cfg,
      ClassRow(data, b0, s, CPU0, cfg, tol), ClassRow(data, b0, s, CPU1, cfg, tol),
      ClassRow(data, b0, s, CPU2, cfg, tol),
      DeltaRow(data, b0, s, CPU0, cfg), DeltaRow(data, b0, s, CPU1, cfg), DeltaRow(data, b0, s, CPU2, cfg));
  }

  // ---- what a row counts and averages

  lemma {:induction false} CountIsCardinality(bs: seq<bool>)
    ensures Count(bs) == |Trues(bs)|
  {
    if bs == [] {
      assert Trues(bs) == {};
    } else {
      var n := |bs| - 1;
      CountIsCardinality(bs[..n]);
      assert Trues(bs) == if bs[n] then Trues(bs[..n]) + {n} else Trues(bs[..n]);
    }
  }

  /** All three CPUs have a delta in the cell. */
  ghost predicate CellMeasured(data: Dataset, k: Key, cfg: string) {
    forall cpu: Cpu :: DeltaCell(data, k, cpu, cfg).Some?
  }

  /** The sum of the deltas that are present. */
  function PresentSum(ds: seq<Option<real>>): real {
    if ds == [] then 0.0
    else PresentSum(ds[..|ds| - 1]) + (if ds[|ds| - 1].Some? then ds[|ds| - 1].value else 0.0)
  }

  function Present(ds: seq<Option<real>>): set<nat> {
    set j: nat | j < |ds| && ds[j].Some?
  }

  /** The mean of the deltas that are present, missing when none is. */
  ghost predicate IsMean(m: Option<real>, ds: seq<Option<real>>) {
    && (m.Some? <==> Present(ds) != {})
    && (m.Some? ==> m.value * |Present(ds)| as real == PresentSum(ds))
  }

  lemma {:induction false} DefinedFacts(ds: seq<Option<real>>)
    ensures |Defined(ds)| == |Present(ds)| && SumOf(Defined(ds)) == PresentSum(ds)
  {
    if ds == [] {
      assert Present(ds) == {};
    } else {
      var n := |ds| - 1;
      var init, xs := ds[..n], Defined(ds[..n]);
      DefinedFacts(init);
      assert Present(ds) == if ds[n].Some? then Present(init) + {n} else Present(init);
      if ds[n].Some? {
        assert (xs + [ds[n].value])[..|xs|] == xs;
      } else {
        assert xs + [] == xs;
      }
    }
  }

  lemma MeanIsMean(ds: seq<Option<real>>)
    ensures IsMean(NanMean(ds), ds)
  {
    DefinedFacts(ds);
    var xs := Defined(ds);
    if xs != [] {
      assert NanMean(ds).value * |xs| as real == SumOf(xs);
    }
  }

  /** The percentage of the counted benchmarks that are accepted, 0 when none is counted. */
  predicate IsRate(rate: real, accepted: nat, total: nat) {
    if total == 0 then rate == 0.0 else rate * total as real == 100.0 * accepted as real
  }

  lemma RateMeaning(accepted: nat, total: nat)
    ensures IsRate(Rate(accepted, total), accepted, total)
  {
    if total > 0 {
      var q := Quotient(100.0 * accepted as real, total as real);
    }
  }

  /** The benchmarks of the scope measured on all three CPUs, and those in which the configuration is
      accepted, by column. */
  ghost function MeasuredIn(data: Dataset, b0: string, s: Scope, cfg: string): set<nat> {
    set j: nat | j < |s.benches| && CellMeasured(data, Key(b0, s.cpu1, s.benches[j]), cfg)
  }

  ghost function AcceptedIn(data: Dataset, b0: string, s: Scope, cfg: string, tol: Tolerances): set<nat> {
    set j: nat | j < |s.benches| && CellAccepted(data, Key(b0, s.cpu1, s.benches[j]), cfg, tol)
  }

  lemma TotalMeaning(data: Dataset, b0: string, s: Scope, cfg: string, tol: Tolerances)
    ensures RowOf(data, b0, s, cfg, tol).total == |MeasuredIn(data, b0, s, cfg)|
  {
    var c0, c1 := ClassRow(data, b0, s, CPU0, cfg, tol), ClassRow(data, b0, s, CPU1, cfg, tol);
    var finite := AllFinite(c0, c1, ClassRow(data, b0, s, CPU2, cfg, tol));
    CountIsCardinality(finite);
    forall j: nat | j < |s.benches|
      ensures finite[j] <==> CellMeasured(data, Key(b0, s.cpu1, s.benches[j]), cfg)
    {
      MeasuredAt(data, b0, s, cfg, tol, j);
    }
    assert Trues(finite) == MeasuredIn(data, b0, s, cfg);
  }

  lemma AcceptedMeaning(data: Dataset, b0: string, s: Scope, cfg: string, tol: Tolerances)
    ensures RowOf(data, b0, s, cfg, tol).accepted == |AcceptedIn(data, b0, s, cfg, tol)|
  {
    var c0, c1 := ClassRow(data, b0, s, CPU0, cfg, tol), ClassRow(data, b0, s, CPU1, cfg, tol);
    var ok := AllAccepted(c0, c1, ClassRow(data, b0, s, CPU2, cfg, tol));
    CountIsCardinality(ok);
    forall j: nat | j < |s.benches|
      ensures ok[j] <==> CellAccepted(data, Key(b0, s.cpu1, s.benches[j]), cfg, tol)
    {
      AcceptedAt(data, b0, s, cfg, tol, j);
    }
    assert Trues(ok) == AcceptedIn(data, b0, s, cfg, tol);
  }

  lemma MeasuredAt(data: Dataset, b0: string, s: Scope, cfg: string, tol: Tolerances, j: nat)
    requires j < |s.benches|
    ensures AllFinite(ClassRow(data, b0, s, CPU0, cfg, tol), ClassRow(data, b0, s, CPU1, cfg, tol),
                      ClassRow(data, b0, s, CPU2, cfg, tol))[j]
            <==> CellMeasured(data, Key(b0, s.cpu1, s.benches[j]), cfg)
  {
    var k := Key(b0, s.cpu1, s.benches[j]);
    if && DeltaCell(data, k, CPU0, cfg).Some? && DeltaCell(data, k, CPU1, cfg).Some?
       && DeltaCell(data, k, CPU2, cfg).Some? {
      forall cpu: Cpu ensures DeltaCell(data, k, cpu, cfg).Some? {
        match cpu case CPU0 => case CPU1 => case CPU2 =>
      }
    }
  }

  /** What a row counts: its benchmarks measured on all three CPUs, those among them in which it is
      accepted, and the percentage. */
  lemma RowCounts(data: Dataset, b0: string, s: Scope, cfg: string, tol: Tolerances)
    ensures var r := RowOf(data, b0, s, cfg, tol);
            && r.bench == b0 && r.cfg == cfg && r.caption == ConfigOrder.Label(cfg)
            && r.total == |MeasuredIn(data, b0, s, cfg)|
            && r.accepted == |AcceptedIn(data, b0, s, cfg, tol)|
            && IsRate(r.rate, r.accepted, r.total)
  {
    TotalMeaning(data, b0, s, cfg, tol);
    AcceptedMeaning(data, b0, s, cfg, tol);
    var r := RowOf(data, b0, s, cfg, tol);
    RateMeaning(r.accepted, r.total);
  }

  /** What a row averages: the deltas of each CPU over the benchmarks that have one; `worst` is the largest
      of the means. */
  lemma RowMeans(data: Dataset, b0: string, s: Scope, cfg: string, tol: Tolerances)
    ensures var r := RowOf(data, b0, s, cfg, tol);
            && IsMean(r.mean0, DeltaRow(data, b0, s, CPU0, cfg))
            && IsMean(r.mean1, DeltaRow(data, b0, s, CPU1, cfg))
            && IsMean(r.mean2, DeltaRow(data, b0, s, CPU2, cfg))
            && r.worst in [r.mean0, r.mean1, r.mean2] && SaneMeans(r)
  {
    RowsAreWellFormed(data, b0, s, cfg, tol);
    MeanIsMean(DeltaRow(data, b0, s, CPU0, cfg));
    MeanIsMean(DeltaRow(data, b0, s, CPU1, cfg));
    MeanIsMean(DeltaRow(data, b0, s, CPU2, cfg));
    var r := RowOf(data, b0, s, cfg, tol);
    WorstIsOne(r.mean0, r.mean1, r.mean2);
  }

  lemma WorstIsOne(m0: Option<real>, m1: Option<real>, m2: Option<real>)
    ensures NanMax2(NanMax2(m0, m1), m2) in [m0, m1, m2]
  {
    var s := [m0, m1, m2];
    assert s[0] == m0 && s[1] == m1 && s[2] == m2;
  }

  // ---- tolerances

  /** The largest delta that still gets class 0 or 1. */
  function Limit(cpu: Cpu, tol: Tolerances): real {
    var t := tol.Tau(cpu);
    if t >= tol.factor * t then t else tol.factor * t
  }

  lemma ClassWithinLimit(cpu: Cpu, d: real, tol: Tolerances)
    ensures ClassOf(d, tol.Tau(cpu), tol.factor) <= 1 <==> d <= Limit(cpu, tol)
  {
  }

  /** No delta this CPU can show is accepted before and refused after. */
  predicate KeepsCpu(cpu: Cpu, tol: Tolerances, tol': Tolerances) {
    Limit(cpu, tol) <= Limit(cpu, tol') || (cpu != CPU0 && Limit(cpu, tol') >= 100.0)
  }

  /** The change of tolerances is harmless: either nothing could be accepted before, or every CPU keeps
      what it accepted. */
  ghost predicate NeverStricter(tol: Tolerances, tol': Tolerances) {
    (exists cpu: Cpu :: Limit(cpu, tol) < 0.0) || (forall cpu: Cpu :: KeepsCpu(cpu, tol, tol'))
  }

  /** Raising any non-negative tau, or the factor, is harmless in this sense. */
  lemma RaisingIsNeverStricter(tol: Tolerances, tol': Tolerances)
    requires 0.0 <= tol.tau0 <= tol'.tau0 && 0.0 <= tol.tau1 <= tol'.tau1 && 0.0 <= tol.tau2 <= tol'.tau2
    requires tol.factor <= tol'.factor
    ensures NeverStricter(tol, tol')
  {
    forall cpu: Cpu ensures Limit(cpu, tol) <= Limit(cpu, tol') {
      RaiseOne(tol.Tau(cpu), tol'.Tau(cpu), tol.factor, tol'.factor);
    }
  }

  lemma RaiseOne(t: real, t': real, f: real, f': real)
    requires 0.0 <= t <= t' && f <= f'
    ensures (if t >= f * t then t else f * t) <= (if t' >= f' * t' then t' else f' * t')
  {
    RaiseProduct(t, t', f, f', f * t, f' * t');
  }

  lemma RaiseProduct(t: real, t': real, f: real, f': real, w: real, w': real)
    requires 0.0 <= t <= t' && f <= f' && w == f * t && w' == f' * t'
    ensures w <= w' || w <= t
  {
    var d, e := f' - f, t' - t;
    assert d * t == f' * t - f * t && d * t >= 0.0;
    assert f' * e == f' * t' - f' * t;
    assert f' >= 0.0 ==> f' * e >= 0.0;
    assert f' < 0.0 ==> f' * t <= 0.0;
  }

  /** Accepts at least as much, and agrees in everything that does not depend on the classes. */
  predicate NoWorse(r: Row, r': Row) {
    && r.accepted <= r'.accepted && r.rate <= r'.rate
    && r' == r.(accepted := r'.accepted, rate := r'.rate)
  }

  predicate TableNoWorse(rows: seq<Row>, rows': seq<Row>) {
    |rows| == |rows'| && forall i | 0 <= i < |rows| :: NoWorse(rows[i], rows'[i])
  }

  predicate Accepted(k: Option<nat>) {
    k.Some? && k.value <= 1
  }

  /** The ranking's verdict on one (configuration, benchmark) cell. */
  ghost predicate CellAccepted(data: Dataset, k: Key, cfg: string, tol: Tolerances) {
    forall cpu: Cpu :: Accepted(ClassCell(data, k, cpu, cfg, tol))
  }

  /** Spelt out for the three CPUs. */
  lemma ByCpu(data: Dataset, k: Key, cfg: string, tol: Tolerances)
    ensures CellAccepted(data, k, cfg, tol) <==>
            && Accepted(ClassCell(data, k, CPU0, cfg, tol))
            && Accepted(ClassCell(data, k, CPU1, cfg, tol))
            && Accepted(ClassCell(data, k, CPU2, cfg, tol))
  {
    if && Accepted(ClassCell(data, k, CPU0, cfg, tol)) && Accepted(ClassCell(data, k, CPU1, cfg, tol))
       && Accepted(ClassCell(data, k, CPU2, cfg, tol)) {
      forall cpu: Cpu ensures Accepted(ClassCell(data, k, cpu, cfg, tol)) {
        match cpu case CPU0 => case CPU1 => case CPU2 =>
      }
    }
  }

  /** In terms of deltas. */
  lemma CellAcceptedLimit(data: Dataset, k: Key, cfg: string, tol: Tolerances)
    ensures CellAccepted(data, k, cfg, tol) <==>
            forall cpu: Cpu ::
              DeltaCell(data, k, cpu, cfg).Some? && DeltaCell(data, k, cpu, cfg).value <= Limit(cpu, tol)
  {
    forall cpu: Cpu
      ensures (ClassCell(data, k, cpu, cfg, tol).Some? && ClassCell(data, k, cpu, cfg, tol).value <= 1) <==>
              (DeltaCell(data, k, cpu, cfg).Some? && DeltaCell(data, k, cpu, cfg).value <= Limit(cpu, tol))
    {
      if DeltaCell(data, k, cpu, cfg).Some? {
        ClassWithinLimit(cpu, DeltaCell(data, k, cpu, cfg).value, tol);
      }
    }
  }

  lemma CellStaysAccepted(data: Dataset, k: Key, cfg: string, tol: Tolerances, tol': Tolerances)
    requires NeverStricter(tol, tol') && CellAccepted(data, k, cfg, tol)
    ensures CellAccepted(data, k, cfg, tol')
  {
    CellAcceptedLimit(data, k, cfg, tol);
    CellAcceptedLimit(data, k, cfg, tol');
    forall cpu: Cpu ensures DeltaCell(data, k, cpu, cfg).value <= Limit(cpu, tol') {
      assert DeltaCell(data, k, cpu, cfg).value <= Limit(cpu, tol);
      CellRange(data, k, cpu, cfg);
      if !KeepsCpu(cpu, tol, tol') {
        var dead: Cpu :| Limit(dead, tol) < 0.0;
        CellRange(data, k, dead, cfg);
      }
    }
  }

  /** Tolerances that are not stricter never lower a configuration's accepted count or its rate, and
      leave its total, its three means and `worst` as they were. */
  lemma LooserNeverLowers(data: Dataset, b0: string, s: Scope, cfg: string, tol: Tolerances, tol': Tolerances)
    requires NeverStricter(tol, tol')
    ensures var r, r' := RowOf(data, b0, s, cfg, tol), RowOf(data, b0, s, cfg, tol');
            NoWorse(r, r')
  {
    var c0, c1 := ClassRow(data, b0, s, CPU0, cfg, tol), ClassRow(data, b0, s, CPU1, cfg, tol);
    var c2 := ClassRow(data, b0, s, CPU2, cfg, tol);
    var e0, e1 := ClassRow(data, b0, s, CPU0, cfg, tol'), ClassRow(data, b0, s, CPU1, cfg, tol');
    var e2 := ClassRow(data, b0, s, CPU2, cfg, tol');
    assert AllFinite(c0, c1, c2) == AllFinite(e0, e1, e2);
    forall j | 0 <= j < |s.benches| ensures AllAccepted(c0, c1, c2)[j] ==> AllAccepted(e0, e1, e2)[j] {
      AcceptedAt(data, b0, s, cfg, tol, j);
      AcceptedAt(data, b0, s, cfg, tol', j);
      if AllAccepted(c0, c1, c2)[j] {
        CellStaysAccepted(data, Key(b0, s.cpu1, s.benches[j]), cfg, tol, tol');
      }
    }
    CountMonotone(AllAccepted(c0, c1, c2), AllAccepted(e0, e1, e2));
    RateMonotone(Count(AllAccepted(c0, c1, c2)), Count(AllAccepted(e0, e1, e2)), Count(AllFinite(c0, c1, c2)));
  }

  lemma AcceptedAt(data: Dataset, b0: string, s: Scope, cfg: string, tol: Tolerances, j: nat)
    requires j < |s.benches|
    ensures AllAccepted(ClassRow(data, b0, s, CPU0, cfg, tol), ClassRow(data, b0, s, CPU1, cfg, tol),
                        ClassRow(data, b0, s, CPU2, cfg, tol))[j]
            <==> CellAccepted(data, Key(b0, s.cpu1, s.benches[j]), cfg, tol)
  {
    var k := Key(b0, s.cpu1, s.benches[j]);
    ByCpu(data, k, cfg, tol);
    var r0, r1 := ClassRow(data, b0, s, CPU0, cfg, tol), ClassRow(data, b0, s, CPU1, cfg, tol);
    var r2 := ClassRow(data, b0, s, CPU2, cfg, tol);
    AllAcceptedAt(r0, r1, r2, j);
  }

  lemma AllAcceptedAt(r0: seq<Option<nat>>, r1: seq<Option<nat>>, r2: seq<Option<nat>>, j: nat)
    requires |r0| == |r1| == |r2| && j < |r0|
    ensures AllAccepted(r0, r1, r2)[j] <==> Accepted(r0[j]) && Accepted(r1[j]) && Accepted(r2[j])
  {
  }

  /** The same for the whole table: row by row, in the same order, nothing is lost. */
  lemma {:induction false} TableNeverLowers(data: Dataset, cpu0s: seq<string>, cpu1: string, cpu2s: set<string>,
                                            tol: Tolerances, tol': Tolerances)
    requires NeverStricter(tol, tol')
    ensures var a, a' := AllRows(data, cpu0s, cpu1, cpu2s, tol), AllRows(data, cpu0s, cpu1, cpu2s, tol');
            && (a.Err? ==> a' == a)
            && (a.Ok? ==> a'.Ok? && TableNoWorse(a.value, a'.value))
  {
    if cpu0s != [] {
      var n := |cpu0s| - 1;
      TableNeverLowers(data, cpu0s[..n], cpu1, cpu2s, tol, tol');
      var s := ResolveOne(data, cpu0s[n], cpu1, cpu2s);
      if s.Ok? {
        BenchNeverLowers(data, cpu0s[n], s.value, tol, tol');
        var a, a' := AllRows(data, cpu0s[..n], cpu1, cpu2s, tol), AllRows(data, cpu0s[..n], cpu1, cpu2s, tol');
        if a.Ok? {
          TablesConcat(a.value, a'.value, RowsOf(data, cpu0s[n], s.value, tol), RowsOf(data, cpu0s[n], s.value, tol'));
        }
      }
    }
  }

  lemma TablesConcat(x: seq<Row>, x': seq<Row>, y: seq<Row>, y': seq<Row>)
    requires TableNoWorse(x, x') && TableNoWorse(y, y')
    ensures TableNoWorse(x + y, x' + y')
  {
    forall i | 0 <= i < |x + y| ensures NoWorse((x + y)[i], (x' + y')[i]) {
      assert i >= |x| ==> NoWorse(y[i - |x|], y'[i - |x|]);
    }
  }

  lemma BenchNeverLowers(data: Dataset, b0: string, s: Scope, tol: Tolerances, tol': Tolerances)
    requires NeverStricter(tol, tol')
    ensures TableNoWorse(RowsOf(data, b0, s, tol), RowsOf(data, b0, s, tol'))
  {
    var rows, rows' := RowsOf(data, b0, s, tol), RowsOf(data, b0, s, tol');
    forall i | 0 <= i < |rows| ensures NoWorse(rows[i], rows'[i]) {
      LooserNeverLowers(data, b0, s, s.cfgs[i], tol, tol');
    }
  }

  lemma RateMonotone(a: nat, a': nat, total: nat)
    requires a <= a'
    ensures Rate(a, total) <= Rate(a', total)
  {
    if total > 0 { DivideByPositive(100.0 * a as real, 100.0 * a' as real, total as real); }
  }

  lemma DivideByPositive(x: real, y: real, t: real)
    requires x <= y && t > 0.0
    ensures x / t <= y / t
  {
    assert (y / t - x / t) * t == y - x;
  }

  // ---- all rows

  lemma {:induction false} AllRowsWellFormed(data: Dataset, cpu0s: seq<string>, cpu1: string, cpu2s: set<string>,
                                             tol: Tolerances)
    requires AllRows(data, cpu0s, cpu1, cpu2s, tol).Ok?
    ensures forall r | r in AllRows(data, cpu0s, cpu1, cpu2s, tol).value :: WellFormed(r)
  {
    if cpu0s != [] {
      var n := |cpu0s| - 1;
      AllRowsWellFormed(data, cpu0s[..n], cpu1, cpu2s, tol);
      var s := ResolveOne(data, cpu0s[n], cpu1, cpu2s).value;
      BenchRowsWellFormed(data, cpu0s[n], s, tol);
      var x, y := AllRows(data, cpu0s[..n], cpu1, cpu2s, tol).value, RowsOf(data, cpu0s[n], s, tol);
      assert forall r | r in x + y :: r in x || r in y;
    }
  }

  lemma BenchRowsWellFormed(data: Dataset, b0: string, s: Scope, tol: Tolerances)
    ensures forall r | r in RowsOf(data, b0, s, tol) :: WellFormed(r)
  {
    var rows := RowsOf(data, b0, s, tol);
    forall r | r in rows ensures WellFormed(r) {
      var i :| 0 <= i < |rows| && r == rows[i];
      RowsAreWellFormed(data, b0, s, s.cfgs[i], tol);
    }
  }

  /** One table after the other; the first failure wins. */
  function Joined(a: Result<seq<Row>, ScopeError>, b: Result<seq<Row>, ScopeError>): Result<seq<Row>, ScopeError> {
    if a.Err? then a else if b.Err? then b else Ok(a.value + b.value)
  }

  lemma JoinedAssoc(a: Result<seq<Row>, ScopeError>, b: Result<seq<Row>, ScopeError>, c: Result<seq<Row>, ScopeError>)
    ensures Joined(Joined(a, b), c) == Joined(a, Joined(b, c))
  {
    if a.Ok? && b.Ok? && c.Ok? { assert a.value + b.value + c.value == a.value + (b.value + c.value); }
  }

  /** The table of one benchmark; without data there is only one way to fail. */
  lemma OneBench(data: Dataset, b0: string, cpu1: string, cpu2s: set<string>, tol: Tolerances)
    ensures var s := ResolveOne(data, b0, cpu1, cpu2s);
            AllRows(data, [b0], cpu1, cpu2s, tol) ==
              if s.Err? then Err(NoEntries) else Ok(RowsOf(data, b0, s.value, tol))
  {
    assert [b0][..0] == [];
    var s := ResolveOne(data, b0, cpu1, cpu2s);
    if s.Ok? { assert [] + RowsOf(data, b0, s.value, tol) == RowsOf(data, b0, s.value, tol); }
  }

  lemma LastBench(data: Dataset, cpu0s: seq<string>, cpu1: string, cpu2s: set<string>, tol: Tolerances)
    requires cpu0s != []
    ensures var n := |cpu0s| - 1;
            AllRows(data, cpu0s, cpu1, cpu2s, tol) ==
            Joined(AllRows(data, cpu0s[..n], cpu1, cpu2s, tol), AllRows(data, [cpu0s[n]], cpu1, cpu2s, tol))
  {
    OneBench(data, cpu0s[|cpu0s| - 1], cpu1, cpu2s, tol);
  }

  /** The table before sorting lists the benchmarks in the order in which they are given, those of a longer
      list after those of its beginning. */
  lemma {:induction false} RowsInTurn(data: Dataset, x: seq<string>, y: seq<string>, cpu1: string, cpu2s: set<string>,
                                      tol: Tolerances)
    ensures AllRows(data, x + y, cpu1, cpu2s, tol) ==
            Joined(AllRows(data, x, cpu1, cpu2s, tol), AllRows(data, y, cpu1, cpu2s, tol))
  {
    var a := AllRows(data, x, cpu1, cpu2s, tol);
    if y == [] {
      assert x + y == x;
      assert a.Ok? ==> a.value + [] == a.value;
    } else {
      var n := |y| - 1;
      assert (x + y)[..|x + y| - 1] == x + y[..n] && (x + y)[|x + y| - 1] == y[n];
      RowsInTurn(data, x, y[..n], cpu1, cpu2s, tol);
      LastBench(data, x + y, cpu1, cpu2s, tol);
      LastBench(data, y, cpu1, cpu2s, tol);
      JoinedAssoc(a, AllRows(data, y[..n], cpu1, cpu2s, tol), AllRows(data, [y[n]], cpu1, cpu2s, tol));
    }
  }

  // ---- which configurations are ranked

  ghost function RowCount(data: Dataset, cpu0s: seq<string>, cpu1: string, cpu2s: set<string>): nat {
    if cpu0s == [] then 0
    else
      var n := |cpu0s| - 1;
      var s := ResolveOne(data, cpu0s[n], cpu1, cpu2s);
      RowCount(data, cpu0s[..n], cpu1, cpu2s) + (if s.Ok? then |s.value.cfgs| else 0)
  }

  function RowCfgs(rows: seq<Row>): set<string> {
    set r | r in rows :: r.cfg
  }

  ghost predicate HasData(data: Dataset, b0: string, cpu1: string, cpu2s: set<string>) {
    SelectedKeys(data, b0, Some(cpu1), Some(cpu2s)) != {}
  }

  lemma ResolvesIff(data: Dataset, b0: string, cpu1: string, cpu2s: set<string>)
    ensures ResolveOne(data, b0, cpu1, cpu2s).Ok? <==> HasData(data, b0, cpu1, cpu2s)
  {
  }

  ghost predicate AllHaveData(data: Dataset, cpu0s: seq<string>, cpu1: string, cpu2s: set<string>) {
    forall b0 | b0 in cpu0s :: HasData(data, b0, cpu1, cpu2s)
  }

  lemma AllHaveDataSnoc(data: Dataset, init: seq<string>, b: string, cpu1: string, cpu2s: set<string>)
    ensures AllHaveData(data, init + [b], cpu1, cpu2s) <==>
            AllHaveData(data, init, cpu1, cpu2s) && HasData(data, b, cpu1, cpu2s)
  {
    if AllHaveData(data, init + [b], cpu1, cpu2s) {
      assert forall x | x in init :: x in init + [b];
      assert b in init + [b];
    }
  }

  lemma {:induction false} FailsIff(data: Dataset, cpu0s: seq<string>, cpu1: string, cpu2s: set<string>,
                                    tol: Tolerances)
    ensures AllRows(data, cpu0s, cpu1, cpu2s, tol).Ok? <==> AllHaveData(data, cpu0s, cpu1, cpu2s)
  {
    if cpu0s != [] {
      var n := |cpu0s| - 1;
      FailsIff(data, cpu0s[..n], cpu1, cpu2s, tol);
      ResolvesIff(data, cpu0s[n], cpu1, cpu2s);
      AllHaveDataSnoc(data, cpu0s[..n], cpu0s[n], cpu1, cpu2s);
      assert cpu0s == cpu0s[..n] + [cpu0s[n]];
    }
  }

  lemma {:induction false} RowsCounted(data: Dataset, cpu0s: seq<string>, cpu1: string, cpu2s: set<string>,
                                       tol: Tolerances)
    requires AllRows(data, cpu0s, cpu1, cpu2s, tol).Ok?
    ensures |AllRows(data, cpu0s, cpu1, cpu2s, tol).value| == RowCount(data, cpu0s, cpu1, cpu2s)
  {
    if cpu0s != [] { RowsCounted(data, cpu0s[..|cpu0s| - 1], cpu1, cpu2s, tol); }
  }

  lemma {:induction false} CfgsDetected(data: Dataset, cpu0s: seq<string>, cpu1: string, cpu2s: set<string>,
                                        tol: Tolerances)
    requires AllRows(data, cpu0s, cpu1, cpu2s, tol).Ok?
    ensures RowCfgs(AllRows(data, cpu0s, cpu1, cpu2s, tol).value) ==
            ConfigsAt(data, DetectKeys(data, cpu0s, cpu1, cpu2s))
  {
    if cpu0s == [] {
      assert DetectKeys(data, cpu0s, cpu1, cpu2s) == {};
    } else {
      var n := |cpu0s| - 1;
      var init, b0 := cpu0s[..n], cpu0s[n];
      CfgsDetected(data, init, cpu1, cpu2s, tol);
      assert cpu0s == init + [b0];
      var s, rows := ResolveOne(data, b0, cpu1, cpu2s).value, AllRows(data, init, cpu1, cpu2s, tol).value;
      OneMoreBench(data, init, b0, s, cpu1, cpu2s, tol, rows);
    }
  }

  lemma OneMoreBench(data: Dataset, init: seq<string>, b0: string, s: Scope, cpu1: string, cpu2s: set<string>,
                     tol: Tolerances, rows: seq<Row>)
    requires ResolveOne(data, b0, cpu1, cpu2s) == Ok(s)
    requires RowCfgs(rows) == ConfigsAt(data, DetectKeys(data, init, cpu1, cpu2s))
    ensures RowCfgs(rows + RowsOf(data, b0, s, tol)) == ConfigsAt(data, DetectKeys(data, init + [b0], cpu1, cpu2s))
  {
    BenchCfgs(data, b0, s, cpu1, cpu2s, tol);
    DetectKeysSnoc(data, init, b0, cpu1, cpu2s);
    RowCfgsConcat(rows, RowsOf(data, b0, s, tol));
    ConfigsAtUnion(data, DetectKeys(data, init, cpu1, cpu2s), SelectedKeys(data, b0, Some(cpu1), Some(cpu2s)));
  }

  lemma DetectKeysSnoc(data: Dataset, init: seq<string>, b0: string, cpu1: string, cpu2s: set<string>)
    ensures DetectKeys(data, init + [b0], cpu1, cpu2s) ==
            DetectKeys(data, init, cpu1, cpu2s) + SelectedKeys(data, b0, Some(cpu1), Some(cpu2s))
  {
  }

  lemma RowCfgsConcat(x: seq<Row>, y: seq<Row>)
    ensures RowCfgs(x + y) == RowCfgs(x) + RowCfgs(y)
  {
  }

  lemma ConfigsAtUnion(data: Dataset, keys: set<Key>, keys': set<Key>)
    ensures ConfigsAt(data, keys + keys') == ConfigsAt(data, keys) + ConfigsAt(data, keys')
  {
  }

  /** The run fails exactly when some selected CPU0 benchmark has no data in scope; otherwise it ranks
      exactly the configurations detection reports, one row per benchmark and configuration. */
  lemma RankedConfigsAreDetected(data: Dataset, cpu0s: seq<string>, cpu1: string, cpu2s: set<string>, tol: Tolerances)
    ensures AllRows(data, cpu0s, cpu1, cpu2s, tol).Ok? <==> AllHaveData(data, cpu0s, cpu1, cpu2s)
    ensures AllRows(data, cpu0s, cpu1, cpu2s, tol).Ok? ==>
            var ranked := Sorting.Sort(RowBefore, AllRows(data, cpu0s, cpu1, cpu2s, tol).value);
            && RowCfgs(ranked) == ConfigsAt(data, DetectKeys(data, cpu0s, cpu1, cpu2s))
            && |ranked| == RowCount(data, cpu0s, cpu1, cpu2s)
  {
    FailsIff(data, cpu0s, cpu1, cpu2s, tol);
    if AllRows(data, cpu0s, cpu1, cpu2s, tol).Ok? {
      var rows := AllRows(data, cpu0s, cpu1, cpu2s, tol).value;
      RowsCounted(data, cpu0s, cpu1, cpu2s, tol);
      CfgsDetected(data, cpu0s, cpu1, cpu2s, tol);
      Sorting.SortPermutes(RowBefore, rows);
      assert RowCfgs(Sorting.Sort(RowBefore, rows)) == RowCfgs(rows);
    }
  }

  lemma BenchCfgs(data: Dataset, b0: string, s: Scope, cpu1: string, cpu2s: set<string>, tol: Tolerances)
    requires ResolveOne(data, b0, cpu1, cpu2s) == Ok(s)
    ensures RowCfgs(RowsOf(data, b0, s, tol)) == ConfigsAt(data, SelectedKeys(data, b0, Some(cpu1), Some(cpu2s)))
  {
    var all := ConfigsAt(data, SelectedKeys(data, b0, Some(cpu1), Some(cpu2s)));
    assert Sorting.IsOrdering(ConfigOrder.Before, all, s.cfgs);
    CfgsOfRows(data, b0, s, tol);
    assert (set c | c in s.cfgs) == all;
  }

  lemma CfgsOfRows(data: Dataset, b0: string, s: Scope, tol: Tolerances)
    ensures RowCfgs(RowsOf(data, b0, s, tol)) == set c | c in s.cfgs
  {
    CfgsOfList(RowsOf(data, b0, s, tol), s.cfgs);
  }

  lemma CfgsOfList(rows: seq<Row>, cfgs: seq<string>)
    requires |rows| == |cfgs| && forall i | 0 <= i < |rows| :: rows[i].cfg == cfgs[i]
    ensures RowCfgs(rows) == set c | c in cfgs
  {
    forall c | c in cfgs ensures c in RowCfgs(rows) {
      var i :| 0 <= i < |cfgs| && cfgs[i] == c;
      assert rows[i] in rows && rows[i].cfg == c;
    }
    forall c | c in RowCfgs(rows) ensures c in cfgs {
      var r :| r in rows && r.cfg == c;
      var i :| 0 <= i < |rows| && rows[i] == r;
      assert cfgs[i] == c;
    }
  }
}
