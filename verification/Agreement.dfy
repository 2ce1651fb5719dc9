/** Three independently coded views of "acceptable" (the heatmap mask, the ranking mask and the decision
    graph of DAAT-MCS_tuner.py), and exactly when they agree. */
module Agreement {
  import opened Lists
  import opened Wrappers
  import opened Metrics
  import opened Matrices
  import Heatmap
  import Ranking
  import RankingLaws
  import DT = DecisionTree
  import TreeLaws
  import ConfigOrder
  import opened Arithmetic

  ghost predicate HeatmapAccepts(data: Dataset, k: Key, cfg: string, tol: Tolerances) {
    Heatmap.Accepts(DeltaCell(data, k, CPU0, cfg), DeltaCell(data, k, CPU1, cfg), DeltaCell(data, k, CPU2, cfg), tol)
  }

  /** The graph built from three class matrices. */
  ghost function VerdictsOf(c0: array2<Option<nat>>, c1: array2<Option<nat>>, c2: array2<Option<nat>>, j: nat,
                            cfgs: seq<string>): DT.Verdicts
    requires c0.Length0 == c1.Length0 == c2.Length0 == |cfgs|
    requires j < c0.Length1 && j < c1.Length1 && j < c2.Length1
    reads c0, c1, c2
  {
    DT.Verdicts(DT.Dict(cfgs, DT.ColumnOf(c0, j)), DT.Dict(cfgs, DT.ColumnOf(c1, j)), DT.Dict(cfgs, DT.ColumnOf(c2, j)))
  }

  // ---- graph and ranking

  /** The graph and the ranking always agree: whatever the tolerances, the graph has a ROOT-L0-L1-L2
      path of edges of class at most 1 to a configuration exactly when the ranking accepts its cell. */
  lemma GraphAgreesWithRanking(data: Dataset, b0: string, s: Scope, tol: Tolerances, style: DT.Style,
                               c0: array2<Option<nat>>, c1: array2<Option<nat>>, c2: array2<Option<nat>>,
                               nodes: map<string, DT.Attrs>, edges: DT.Edges, i: nat, j: nat)
    requires i < |s.cfgs| && j < |s.benches|
    requires Distinct(s.cfgs)
    requires IsClassMatrix(c0, data, b0, s, CPU0, tol) && IsClassMatrix(c1, data, b0, s, CPU1, tol)
    requires IsClassMatrix(c2, data, b0, s, CPU2, tol)
    requires DT.IsTreeOf(nodes, edges, VerdictsOf(c0, c1, c2, j, s.cfgs), s.cfgs, style)
    ensures TreeLaws.Passable(edges, DT.NodeName(2, s.cfgs[i])) <==>
            RankingLaws.CellAccepted(data, Key(b0, s.cpu1, s.benches[j]), s.cfgs[i], tol)
  {
    var c, k := s.cfgs[i], Key(b0, s.cpu1, s.benches[j]);
    TreeLaws.PassableIffAccepted(nodes, edges, VerdictsOf(c0, c1, c2, j, s.cfgs), s.cfgs, style, c);
    ColumnVerdict(data, b0, s, tol, CPU0, c0, i, j);
    ColumnVerdict(data, b0, s, tol, CPU1, c1, i, j);
    ColumnVerdict(data, b0, s, tol, CPU2, c2, i, j);
    RankingLaws.ByCpu(data, k, c, tol);
  }

  /** What the class dictionary of one CPU says of a configuration. */
  lemma ColumnVerdict(data: Dataset, b0: string, s: Scope, tol: Tolerances, cpu: Cpu, mat: array2<Option<nat>>,
                      i: nat, j: nat)
    requires i < |s.cfgs| && j < |s.benches| && Distinct(s.cfgs) && IsClassMatrix(mat, data, b0, s, cpu, tol)
    ensures var d, c := DT.Dict(s.cfgs, DT.ColumnOf(mat, j)), s.cfgs[i];
            c in d && d[c] == ClassCell(data, Key(b0, s.cpu1, s.benches[j]), cpu, c, tol)
  {
    DT.DictAt(s.cfgs, DT.ColumnOf(mat, j), i);
  }

  /** Class matrices only yield classes 0, 1 and 2. */
  lemma MatrixVerdictsProper(data: Dataset, b0: string, s: Scope, tol: Tolerances,
                             c0: array2<Option<nat>>, c1: array2<Option<nat>>, c2: array2<Option<nat>>, j: nat)
    requires j < |s.benches|
    requires IsClassMatrix(c0, data, b0, s, CPU0, tol) && IsClassMatrix(c1, data, b0, s, CPU1, tol)
    requires IsClassMatrix(c2, data, b0, s, CPU2, tol)
    ensures VerdictsOf(c0, c1, c2, j, s.cfgs).Proper()
  {
    var v := VerdictsOf(c0, c1, c2, j, s.cfgs);
    forall level: nat, c | level < 3 && v.At(level, c).Some? ensures v.At(level, c).value <= 2 {
      if level == 0 { ColumnProper(data, b0, s, tol, CPU0, c0, j, c); }
      else if level == 1 { ColumnProper(data, b0, s, tol, CPU1, c1, j, c); }
      else { ColumnProper(data, b0, s, tol, CPU2, c2, j, c); }
    }
  }

  lemma ColumnProper(data: Dataset, b0: string, s: Scope, tol: Tolerances, cpu: Cpu, mat: array2<Option<nat>>, j: nat,
                     c: string)
    requires j < |s.benches| && IsClassMatrix(mat, data, b0, s, cpu, tol)
    requires c in DT.Dict(s.cfgs, DT.ColumnOf(mat, j))
    ensures var k := DT.Dict(s.cfgs, DT.ColumnOf(mat, j))[c]; k.Some? ==> k.value <= 2
  {
    var col := DT.ColumnOf(mat, j);
    DT.DictValues(s.cfgs, col, c);
    var i :| 0 <= i < |col| && col[i] == DT.Dict(s.cfgs, col)[c];
    assert col[i] == mat[i, j];
  }

  /** In the graph of a real dataset, a configuration's node is reachable exactly when it is not drawn as
      a shadow. */
  lemma ShadowsAreUnreachable(data: Dataset, b0: string, s: Scope, tol: Tolerances, style: DT.Style,
                              c0: array2<Option<nat>>, c1: array2<Option<nat>>, c2: array2<Option<nat>>, j: nat,
                              nodes: map<string, DT.Attrs>, edges: DT.Edges, level: nat, c: string)
    requires j < |s.benches| && level < 3 && c in s.cfgs && DT.NodeName(level, c) in nodes
    requires IsClassMatrix(c0, data, b0, s, CPU0, tol) && IsClassMatrix(c1, data, b0, s, CPU1, tol)
    requires IsClassMatrix(c2, data, b0, s, CPU2, tol)
    requires DT.IsTreeOf(nodes, edges, VerdictsOf(c0, c1, c2, j, s.cfgs), s.cfgs, style)
    requires style.shadow != style.ok && style.shadow != style.bad
    ensures nodes[DT.NodeName(level, c)].Attrs?
    ensures TreeLaws.Reachable(edges, DT.NodeName(level, c)) <==> nodes[DT.NodeName(level, c)].alpha != style.shadow
  {
    MatrixVerdictsProper(data, b0, s, tol, c0, c1, c2, j);
    TreeLaws.ReachableIffNotShadow(nodes, edges, VerdictsOf(c0, c1, c2, j, s.cfgs), s.cfgs, style, level, c);
  }

  function LevelCpu(level: nat): Cpu {
    if level == 0 then CPU0 else if level == 1 then CPU1 else CPU2
  }

  /** In the graph of a real dataset, the node of a configuration is drawn as ok exactly when the ranking
      accepts it on this CPU and all before it, and as bad exactly when this CPU is the first that does not. */
  lemma NodesShowVerdicts(data: Dataset, b0: string, s: Scope, tol: Tolerances, style: DT.Style,
                          c0: array2<Option<nat>>, c1: array2<Option<nat>>, c2: array2<Option<nat>>,
                          nodes: map<string, DT.Attrs>, edges: DT.Edges, level: nat, i: nat, j: nat)
    requires i < |s.cfgs| && j < |s.benches| && level < 3 && DT.NodeName(level, s.cfgs[i]) in nodes
    requires Distinct(s.cfgs)
    requires IsClassMatrix(c0, data, b0, s, CPU0, tol) && IsClassMatrix(c1, data, b0, s, CPU1, tol)
    requires IsClassMatrix(c2, data, b0, s, CPU2, tol)
    requires DT.IsTreeOf(nodes, edges, VerdictsOf(c0, c1, c2, j, s.cfgs), s.cfgs, style)
    requires style.shadow != style.ok && style.shadow != style.bad && style.ok != style.bad
    ensures nodes[DT.NodeName(level, s.cfgs[i])].Attrs?
    ensures var k, alpha := Key(b0, s.cpu1, s.benches[j]), nodes[DT.NodeName(level, s.cfgs[i])].alpha;
            && (alpha == style.ok <==>
                  forall l: nat | l <= level :: RankingLaws.Accepted(ClassCell(data, k, LevelCpu(l), s.cfgs[i], tol)))
            && (alpha == style.bad <==>
                  && (forall l: nat | l < level ::
                        RankingLaws.Accepted(ClassCell(data, k, LevelCpu(l), s.cfgs[i], tol)))
                  && !RankingLaws.Accepted(ClassCell(data, k, LevelCpu(level), s.cfgs[i], tol)))
  {
    var v, c, k := VerdictsOf(c0, c1, c2, j, s.cfgs), s.cfgs[i], Key(b0, s.cpu1, s.benches[j]);
    MatrixVerdictsProper(data, b0, s, tol, c0, c1, c2, j);
    TreeLaws.NodeMeaning(nodes, edges, v, s.cfgs, style, level, c);
    forall l: nat | l < 3 ensures v.At(l, c) == ClassCell(data, k, LevelCpu(l), c, tol) {
      if l == 0 { ColumnVerdict(data, b0, s, tol, CPU0, c0, i, j); }
      else if l == 1 { ColumnVerdict(data, b0, s, tol, CPU1, c1, i, j); }
      else { ColumnVerdict(data, b0, s, tol, CPU2, c2, i, j); }
    }
    assert v.At(level, c).value <= 2;
    PassedIff(data, k, c, tol, v, level);
  }

  lemma PassedIff(data: Dataset, k: Key, c: string, tol: Tolerances, v: DT.Verdicts, level: nat)
    requires level < 3 && forall l: nat | l < 3 :: v.At(l, c) == ClassCell(data, k, LevelCpu(l), c, tol)
    ensures TreeLaws.PassedBefore(v, level, c) <==>
            forall l: nat | l < level :: RankingLaws.Accepted(ClassCell(data, k, LevelCpu(l), c, tol))
    ensures TreeLaws.PassedAt(v, level, c) <==> RankingLaws.Accepted(ClassCell(data, k, LevelCpu(level), c, tol))
  {
    assert forall l: nat | l < 3 ::
      TreeLaws.PassedAt(v, l, c) <==> RankingLaws.Accepted(ClassCell(data, k, LevelCpu(l), c, tol));
  }

  /** The configurations a scope lists are free of duplicates, as the graph builder expects. */
  lemma ScopeIsDuplicateFree(data: Dataset, b0: string, b1: Option<string>, b2s: Option<set<string>>, s: Scope)
    requires Resolve(data, b0, b1, b2s) == Ok(s)
    ensures Distinct(s.cfgs)
  {
    forall a, b | 0 <= a < b < |s.cfgs| ensures s.cfgs[a] != s.cfgs[b] {
      assert ConfigOrder.Before(s.cfgs[a], s.cfgs[b]);
      ConfigOrder.BeforeTotal({s.cfgs[a]});
    }
  }

  // ---- heatmap and ranking

  /** No delta at all can be accepted on this CPU, by either view. */
  predicate Dead(cpu: Cpu, tol: Tolerances) {
    tol.Tau(cpu) < 0.0 && tol.Wide(cpu) < 0.0
  }

  /** The widened tolerance is the narrower one, and some delta falls between the two. */
  predicate Splits(cpu: Cpu, tol: Tolerances) {
    tol.Tau(cpu) > 0.0 && tol.factor < 1.0 && (cpu == CPU0 || tol.Wide(cpu) < 100.0)
  }

  /** A test on the tolerances alone.  It holds for every factor of at least 1. */
  ghost predicate Consistent(tol: Tolerances) {
    (exists cpu: Cpu :: Dead(cpu, tol)) || (forall cpu: Cpu :: !Splits(cpu, tol))
  }

  lemma FactorAtLeastOneIsConsistent(tol: Tolerances)
    requires tol.factor >= 1.0
    ensures Consistent(tol)
  {
  }

  lemma SplitMeaning(proper: bool, d: real, t: real, f: real, w: real)
    requires d >= 0.0 && (proper ==> d < 100.0) && w == f * t
    requires !(t > 0.0 && f < 1.0 && (!proper || w < 100.0))
    ensures d <= w <==> ClassOf(d, t, f) <= 1
  {
    ProductFacts(f, t, w);
  }

  /** The tolerances decide alone whether the heatmap and the ranking can ever disagree: they accept the
      same cells in every dataset if and only if the tolerances are consistent. */
  lemma HeatmapAgreesWithRankingIff(tol: Tolerances)
    ensures Consistent(tol) <==>
            forall data: Dataset, k: Key, cfg: string ::
              HeatmapAccepts(data, k, cfg, tol) <==> RankingLaws.CellAccepted(data, k, cfg, tol)
  {
    if Consistent(tol) {
      forall data: Dataset, k: Key, cfg: string
        ensures HeatmapAccepts(data, k, cfg, tol) <==> RankingLaws.CellAccepted(data, k, cfg, tol)
      {
        ConsistentCell(data, k, cfg, tol);
      }
    } else {
      var data, k := DisagreeingDataset(tol);
    }
  }

  /** With one CPU splitting and none dead, here is a dataset on which the two views differ. */
  lemma DisagreeingDataset(tol: Tolerances) returns (data: Dataset, k: Key)
    requires !Consistent(tol)
    ensures RankingLaws.CellAccepted(data, k, "b", tol) && !HeatmapAccepts(data, k, "b", tol)
  {
    var cpu: Cpu :| Splits(cpu, tol);
    var t := tol.Tau(cpu);
    var lo := tol.Wide(cpu);
    ProductFacts(tol.factor, t, lo);
    k := Key("p", "cache_q", "r");
    data := Witness(cpu, k, lo, t);
    if HeatmapAccepts(data, k, "b", tol) { HeatmapByCpu(data, k, "b", tol, cpu); }
    forall other: Cpu ensures RankingLaws.Accepted(ClassCell(data, k, other, "b", tol)) {
      assert !Dead(other, tol);
      AcceptedByDelta(data, k, other, "b", tol);
    }
  }

  /** One CPU outside its widened tolerance is enough for the heatmap to refuse. */
  lemma HeatmapByCpu(data: Dataset, k: Key, cfg: string, tol: Tolerances, cpu: Cpu)
    requires HeatmapAccepts(data, k, cfg, tol)
    ensures DeltaCell(data, k, cpu, cfg).Some? && DeltaCell(data, k, cpu, cfg).value <= tol.Wide(cpu)
  {
    AcceptsByCpu(DeltaCell(data, k, CPU0, cfg), DeltaCell(data, k, CPU1, cfg), DeltaCell(data, k, CPU2, cfg), tol, cpu);
  }

  lemma AcceptsByCpu(d0: Option<real>, d1: Option<real>, d2: Option<real>, tol: Tolerances, cpu: Cpu)
    requires Heatmap.Accepts(d0, d1, d2, tol)
    ensures var d := match cpu case CPU0 => d0 case CPU1 => d1 case CPU2 => d2; d.Some? && d.value <= tol.Wide(cpu)
  {
    WithinWide(d0, CPU0, tol);
    WithinWide(d1, CPU1, tol);
    WithinWide(d2, CPU2, tol);
  }

  lemma WithinWide(d: Option<real>, cpu: Cpu, tol: Tolerances)
    ensures Heatmap.Within(d, tol.Tau(cpu), tol.factor) <==> d.Some? && d.value <= tol.Wide(cpu)
  {
  }

  lemma AcceptedByDelta(data: Dataset, k: Key, cpu: Cpu, cfg: string, tol: Tolerances)
    ensures RankingLaws.Accepted(ClassCell(data, k, cpu, cfg, tol)) <==>
            var d := DeltaCell(data, k, cpu, cfg); d.Some? && (d.value <= tol.Tau(cpu) || d.value <= tol.Wide(cpu))
  {
    var d := DeltaCell(data, k, cpu, cfg);
    if d.Some? { AcceptedClass(d.value, tol.Tau(cpu), tol.factor, tol.Wide(cpu)); }
  }

  lemma AcceptedClass(d: real, t: real, f: real, w: real)
    requires w == f * t
    ensures ClassOf(d, t, f) <= 1 <==> d <= t || d <= w
  {
  }

  lemma ConsistentDelta(cpu: Cpu, d: real, tol: Tolerances)
    requires d >= 0.0 && (cpu != CPU0 ==> d < 100.0)
    ensures !Splits(cpu, tol) ==> (d <= tol.Wide(cpu) <==> ClassOf(d, tol.Tau(cpu), tol.factor) <= 1)
    ensures Dead(cpu, tol) ==> !(d <= tol.Wide(cpu)) && ClassOf(d, tol.Tau(cpu), tol.factor) == 2
  {
    if !Splits(cpu, tol) {
      SplitMeaning(cpu != CPU0, d, tol.Tau(cpu), tol.factor, tol.Wide(cpu));
    }
  }

  /** What one CPU contributes to the two verdicts. */
  lemma ConsistentCpu(data: Dataset, k: Key, cfg: string, cpu: Cpu, tol: Tolerances)
    ensures var within := Heatmap.Within(DeltaCell(data, k, cpu, cfg), tol.Tau(cpu), tol.factor);
            var accepted := RankingLaws.Accepted(ClassCell(data, k, cpu, cfg, tol));
            && (!Splits(cpu, tol) ==> (within <==> accepted))
            && (Dead(cpu, tol) ==> !within && !accepted)
  {
    CellRange(data, k, cpu, cfg);
    var d := DeltaCell(data, k, cpu, cfg);
    if d.Some? { ConsistentDelta(cpu, d.value, tol); }
  }

  lemma ConsistentCell(data: Dataset, k: Key, cfg: string, tol: Tolerances)
    requires Consistent(tol)
    ensures HeatmapAccepts(data, k, cfg, tol) <==> RankingLaws.CellAccepted(data, k, cfg, tol)
  {
    ConsistentCpu(data, k, cfg, CPU0, tol);
    ConsistentCpu(data, k, cfg, CPU1, tol);
    ConsistentCpu(data, k, cfg, CPU2, tol);
    RankingLaws.ByCpu(data, k, cfg, tol);
    if dead: Cpu :| Dead(dead, tol) {
      assert dead == CPU0 || dead == CPU1 || dead == CPU2;
    }
  }

  /** The three views together, for tolerances a user would give. */
  lemma ThreeViewsAgree(data: Dataset, b0: string, s: Scope, tol: Tolerances, style: DT.Style,
                        c0: array2<Option<nat>>, c1: array2<Option<nat>>, c2: array2<Option<nat>>,
                        nodes: map<string, DT.Attrs>, edges: DT.Edges, i: nat, j: nat)
    requires i < |s.cfgs| && j < |s.benches| && Consistent(tol)
    requires Distinct(s.cfgs)
    requires IsClassMatrix(c0, data, b0, s, CPU0, tol) && IsClassMatrix(c1, data, b0, s, CPU1, tol)
    requires IsClassMatrix(c2, data, b0, s, CPU2, tol)
    requires DT.IsTreeOf(nodes, edges, VerdictsOf(c0, c1, c2, j, s.cfgs), s.cfgs, style)
    ensures var k := Key(b0, s.cpu1, s.benches[j]);
            && (HeatmapAccepts(data, k, s.cfgs[i], tol) <==> RankingLaws.CellAccepted(data, k, s.cfgs[i], tol))
            && (TreeLaws.Passable(edges, DT.NodeName(2, s.cfgs[i])) <==>
                RankingLaws.CellAccepted(data, k, s.cfgs[i], tol))
  {
    HeatmapAgreesWithRankingIff(tol);
    GraphAgreesWithRanking(data, b0, s, tol, style, c0, c1, c2, nodes, edges, i, j);
  }

  /** With what a user gives: a scope that resolves and a factor of at least 1. */
  lemma ThreeViewsAgreeInScope(data: Dataset, b0: string, b1: Option<string>, b2s: Option<set<string>>, s: Scope,
                               tol: Tolerances, style: DT.Style,
                               c0: array2<Option<nat>>, c1: array2<Option<nat>>, c2: array2<Option<nat>>,
                               nodes: map<string, DT.Attrs>, edges: DT.Edges, i: nat, j: nat)
    requires Resolve(data, b0, b1, b2s) == Ok(s) && tol.factor >= 1.0
    requires i < |s.cfgs| && j < |s.benches|
    requires IsClassMatrix(c0, data, b0, s, CPU0, tol) && IsClassMatrix(c1, data, b0, s, CPU1, tol)
    requires IsClassMatrix(c2, data, b0, s, CPU2, tol)
    requires DT.IsTreeOf(nodes, edges, VerdictsOf(c0, c1, c2, j, s.cfgs), s.cfgs, style)
    ensures var k := Key(b0, s.cpu1, s.benches[j]);
            && (HeatmapAccepts(data, k, s.cfgs[i], tol) <==> RankingLaws.CellAccepted(data, k, s.cfgs[i], tol))
            && (TreeLaws.Passable(edges, DT.NodeName(2, s.cfgs[i])) <==>
                RankingLaws.CellAccepted(data, k, s.cfgs[i], tol))
  {
    ScopeIsDuplicateFree(data, b0, b1, b2s, s);
    FactorAtLeastOneIsConsistent(tol);
    ThreeViewsAgree(data, b0, s, tol, style, c0, c1, c2, nodes, edges, i, j);
  }

  // ---- the three programs on one dataset

  /** The trees of `plot_trees_grid`, one per benchmark, from the class-only builder's matrices. */
  method Trees(ghost data: Dataset, b0: string, s: Scope, ghost tol: Tolerances, style: DT.Style,
               c0: array2<Option<nat>>, c1: array2<Option<nat>>, c2: array2<Option<nat>>) returns (trees: seq<DT.Edges>)
    requires Distinct(s.cfgs)
    requires IsClassMatrix(c0, data, b0, s, CPU0, tol) && IsClassMatrix(c1, data, b0, s, CPU1, tol)
    requires IsClassMatrix(c2, data, b0, s, CPU2, tol)
    ensures |trees| == |s.benches|
    ensures forall j, i | 0 <= j < |trees| && 0 <= i < |s.cfgs| :: TreeAgrees(data, b0, s, tol, trees[j], i, j)
  {
    trees := [];
    for j := 0 to |s.benches|
      invariant |trees| == j
      invariant forall j', i | 0 <= j' < j && 0 <= i < |s.cfgs| :: TreeAgrees(data, b0, s, tol, trees[j'], i, j')
    {
      var g, _ := DT.BuildTree(c0, c1, c2, j, s.cfgs, style);
      forall i | 0 <= i < |s.cfgs| ensures TreeAgrees(data, b0, s, tol, g.edges, i, j) {
        GraphAgreesWithRanking(data, b0, s, tol, style, c0, c1, c2, g.nodes, g.edges, i, j);
      }
      trees := trees + [g.edges];
    }
  }

  ghost predicate TreeAgrees(data: Dataset, b0: string, s: Scope, tol: Tolerances, edges: DT.Edges, i: nat, j: nat)
    requires i < |s.cfgs| && j < |s.benches|
  {
    TreeLaws.Passable(edges, DT.NodeName(2, s.cfgs[i])) <==>
    RankingLaws.CellAccepted(data, Key(b0, s.cpu1, s.benches[j]), s.cfgs[i], tol)
  }

  /** The green cells of one configuration. */
  function GreenOf(green: array2<bool>, i: nat): (r: seq<bool>)
    requires i < green.Length1
    reads green
    ensures |r| == green.Length0
    ensures forall j | 0 <= j < |r| :: r[j] == green[j, i]
  {
    seq(green.Length0, j requires 0 <= j < green.Length0 reads green => green[j, i])
  }

  /** Heatmap, trees and ranking of one benchmark, each by its own code from the same dataset.  With
      consistent tolerances, in particular with a factor of at least 1, a cell is green exactly when its
      tree has an acceptable path, and a row's accepted count is its number of green cells. */
  method RunThreeViews(suite: PlotSuite, b0: string, cpu1: string, cpu2s: set<string>, tol: Tolerances, style: DT.Style)
    returns (r: Result<Scope, ScopeError>, green: array2<bool>, trees: seq<DT.Edges>, rows: seq<Ranking.Row>)
    ensures r == Ranking.ResolveOne(suite.data, b0, cpu1, cpu2s)
    ensures r.Ok? ==> green.Length0 == |trees| == |r.value.benches| && green.Length1 == |rows| == |r.value.cfgs|
    ensures r.Ok? && Consistent(tol) ==>
              forall j, i | 0 <= j < |trees| && 0 <= i < |rows| ::
                green[j, i] <==> TreeLaws.Passable(trees[j], DT.NodeName(2, r.value.cfgs[i]))
    ensures r.Ok? && Consistent(tol) ==>
              forall i | 0 <= i < |rows| ::
                rows[i].cfg == r.value.cfgs[i] && rows[i].accepted == |Trues(GreenOf(green, i))|
    ensures tol.factor >= 1.0 ==> Consistent(tol)
  {
    if tol.factor >= 1.0 { FactorAtLeastOneIsConsistent(tol); }
    green, trees, rows := new bool[0, 0], [], [];
    var delta, klass, r', klass';
    r, delta, klass, r', klass' := RunBothBuilders(suite, b0, Some(cpu1), Some(cpu2s), tol);
    if r.Err? {
      return;
    }
    var s := r.value;
    ScopeIsDuplicateFree(suite.data, b0, Some(cpu1), Some(cpu2s), s);
    green := Heatmap.Mask(delta[CPU0], delta[CPU1], delta[CPU2], tol);
    trees := Trees(suite.data, b0, s, tol, style, klass'[CPU0], klass'[CPU1], klass'[CPU2]);
    var again;
    again, rows := Ranking.BenchRows(suite, b0, cpu1, cpu2s, tol);
    if Consistent(tol) {
      ViewsAgree(suite.data, b0, s, tol, green, trees, rows);
    }
  }

  lemma ViewsAgree(data: Dataset, b0: string, s: Scope, tol: Tolerances, green: array2<bool>, trees: seq<DT.Edges>,
                   rows: seq<Ranking.Row>)
    requires Consistent(tol) && rows == Ranking.RowsOf(data, b0, s, tol)
    requires green.Length0 == |trees| == |s.benches| && green.Length1 == |s.cfgs|
    requires forall j, i | 0 <= j < |s.benches| && 0 <= i < |s.cfgs| ::
               green[j, i] <==> HeatmapAccepts(data, Key(b0, s.cpu1, s.benches[j]), s.cfgs[i], tol)
    requires forall j, i | 0 <= j < |trees| && 0 <= i < |s.cfgs| :: TreeAgrees(data, b0, s, tol, trees[j], i, j)
    ensures forall j, i | 0 <= j < |trees| && 0 <= i < |rows| ::
              green[j, i] <==> TreeLaws.Passable(trees[j], DT.NodeName(2, s.cfgs[i]))
    ensures forall i | 0 <= i < |rows| ::
              rows[i].cfg == s.cfgs[i] && rows[i].accepted == |Trues(GreenOf(green, i))|
  {
    forall j, i | 0 <= j < |trees| && 0 <= i < |rows|
      ensures green[j, i] <==> TreeLaws.Passable(trees[j], DT.NodeName(2, s.cfgs[i]))
      ensures green[j, i] <==> RankingLaws.CellAccepted(data, Key(b0, s.cpu1, s.benches[j]), s.cfgs[i], tol)
    {
      ConsistentCell(data, Key(b0, s.cpu1, s.benches[j]), s.cfgs[i], tol);
      assert TreeAgrees(data, b0, s, tol, trees[j], i, j);
    }
    forall i | 0 <= i < |rows|
      ensures rows[i].cfg == s.cfgs[i] && rows[i].accepted == |Trues(GreenOf(green, i))|
    {
      GreenCounted(data, b0, s, tol, green, i);
    }
  }

  lemma GreenCounted(data: Dataset, b0: string, s: Scope, tol: Tolerances, green: array2<bool>, i: nat)
    requires i < |s.cfgs| && green.Length0 == |s.benches| && green.Length1 == |s.cfgs|
    requires forall j | 0 <= j < |s.benches| ::
               green[j, i] <==> RankingLaws.CellAccepted(data, Key(b0, s.cpu1, s.benches[j]), s.cfgs[i], tol)
    ensures Ranking.RowOf(data, b0, s, s.cfgs[i], tol).accepted == |Trues(GreenOf(green, i))|
  {
    var cfg := s.cfgs[i];
    var ok := Ranking.AllAccepted(Ranking.ClassRow(data, b0, s, CPU0, cfg, tol),
                                  Ranking.ClassRow(data, b0, s, CPU1, cfg, tol),
                                  Ranking.ClassRow(data, b0, s, CPU2, cfg, tol));
    forall j | 0 <= j < |ok| ensures ok[j] == GreenOf(green, i)[j] {
      RankingLaws.AcceptedAt(data, b0, s, cfg, tol, j);
    }
    assert ok == GreenOf(green, i);
    RankingLaws.CountIsCardinality(ok);
  }

  // ---- changing the tolerances

  /** Exactly when a change of tolerances can cost a configuration an accepted cell. */
  lemma NeverStricterIff(tol: Tolerances, tol': Tolerances)
    ensures RankingLaws.NeverStricter(tol, tol') <==>
            forall data: Dataset, k: Key, cfg: string ::
              RankingLaws.CellAccepted(data, k, cfg, tol) ==> RankingLaws.CellAccepted(data, k, cfg, tol')
  {
    if RankingLaws.NeverStricter(tol, tol') {
      forall data: Dataset, k: Key, cfg: string | RankingLaws.CellAccepted(data, k, cfg, tol)
        ensures RankingLaws.CellAccepted(data, k, cfg, tol')
      {
        RankingLaws.CellStaysAccepted(data, k, cfg, tol, tol');
      }
    } else {
      var cpu: Cpu :| !RankingLaws.KeepsCpu(cpu, tol, tol');
      var k := Key("p", "cache_q", "r");
      var data := Witness(cpu, k, RankingLaws.Limit(cpu, tol'), RankingLaws.Limit(cpu, tol));
      RankingLaws.CellAcceptedLimit(data, k, "b", tol);
      RankingLaws.CellAcceptedLimit(data, k, "b", tol');
      assert RankingLaws.CellAccepted(data, k, "b", tol);
      assert !RankingLaws.CellAccepted(data, k, "b", tol');
    }
  }

  // ---- datasets with a delta of our choice

  /** Runs of two configurations: "a" is the baseline, "b" is `m` parts in `parts` worse. */
  function TwoRuns(cpu: Cpu, parts: nat, m: nat): Runs
    requires cpu != CPU0 ==> m < parts
  {
    if cpu == CPU0 then map["a" := [parts], "b" := [parts + m]]
    else map["a" := Ones(parts), "b" := Ones(parts - m)]
  }

  function Ones(n: nat): seq<int> {
    if n == 0 then [] else [1] + Ones(n - 1)
  }

  lemma {:induction false} OnesClean(n: nat)
    ensures Cleaned(Ones(n)) == Ones(n) && |Ones(n)| == n
  {
    if n > 0 {
      OnesClean(n - 1);
      assert Ones(n)[1..] == Ones(n - 1);
    }
  }

  lemma TwoMetricsTimed(parts: nat, m: nat)
    requires parts > 0
    ensures MetricsOf(CPU0, TwoRuns(CPU0, parts, m)) ==
            map["a" := parts as real / 1000.0, "b" := (parts + m) as real / 1000.0]
  {
    var runs := TwoRuns(CPU0, parts, m);
    assert Cleaned([parts]) == [parts] && Cleaned([parts + m]) == [parts + m];
    assert Sum([parts]) == parts && Sum([parts + m]) == parts + m;
    assert Metric(CPU0, runs["a"]) == Some(parts as real / 1000.0);
    assert Metric(CPU0, runs["b"]) == Some((parts + m) as real / 1000.0);
  }

  lemma TwoMetricsCounted(cpu: Cpu, parts: nat, m: nat)
    requires cpu != CPU0 && m < parts
    ensures MetricsOf(cpu, TwoRuns(cpu, parts, m)) == map["a" := parts as real, "b" := (parts - m) as real]
  {
    var runs := TwoRuns(cpu, parts, m);
    OnesClean(parts);
    OnesClean(parts - m);
    assert Metric(cpu, runs["a"]) == Some(parts as real);
    assert Metric(cpu, runs["b"]) == Some((parts - m) as real);
  }

  lemma TwoRunsDelta(data: Dataset, k: Key, cpu: Cpu, parts: nat, m: nat, r: real)
    requires parts > 0 && (cpu != CPU0 ==> m < parts) && r == 100.0 * (m as real / parts as real)
    requires RunsOf(data, k, cpu) == TwoRuns(cpu, parts, m)
    ensures DeltaCell(data, k, cpu, "b") == Some(r)
  {
    var values := MetricsOf(cpu, RunsOf(data, k, cpu));
    if cpu == CPU0 { TwoMetricsTimed(parts, m); } else { TwoMetricsCounted(cpu, parts, m); }
    assert "a" in values && "b" in values;
    var b, v := values["a"], values["b"];
    assert b > 0.0 && AtLeastAsGood(cpu, b, v);
    BestOfTwo(cpu, values, b, v);
    DeltaOfParts(cpu, parts, m, if cpu == CPU0 then 1000.0 else 1.0, v, b);
  }

  lemma BestOfTwo(cpu: Cpu, values: map<string, real>, b: real, v: real)
    requires values == map["a" := b, "b" := v] && AtLeastAsGood(cpu, b, v)
    ensures values != map[] && Best(cpu, values) == b
  {
    assert "a" in values && values["a"] == b;
    assert IsBest(cpu, values, b);
    BestUnique(cpu, values, b);
  }

  lemma DeltaOfParts(cpu: Cpu, parts: nat, m: nat, u: real, v: real, b: real)
    requires parts > 0 && u > 0.0 && b == parts as real / u && b > 0.0
    requires v == (if cpu == CPU0 then parts as real + m as real else parts as real - m as real) / u
    ensures Delta(cpu, v, b) == 100.0 * (m as real / parts as real)
  {
    DeltaAsRatio(cpu, v, b);
    var r, p := m as real / parts as real, parts as real;
    assert r * p == m as real && b * u == p;
    if cpu == CPU0 {
      assert v * u == (1.0 + r) * p;
      assert v == (1.0 + r) * b by { assert (v - (1.0 + r) * b) * u == 0.0; }
      RatioIs(v, b, 1.0 + r);
    } else {
      assert v * u == (1.0 - r) * p;
      assert v == (1.0 - r) * b by { assert (v - (1.0 - r) * b) * u == 0.0; }
      RatioIs(v, b, 1.0 - r);
    }
  }

  /** A dataset in which "b" has a delta in (lo, hi] on one CPU and delta 0 on the two others. */
  lemma Witness(cpu: Cpu, k: Key, lo: real, hi: real) returns (data: Dataset)
    requires lo < hi && hi >= 0.0 && (cpu != CPU0 ==> lo < 100.0)
    ensures forall other: Cpu :: DeltaCell(data, k, other, "b").Some?
    ensures lo < DeltaCell(data, k, cpu, "b").value <= hi
    ensures forall other: Cpu | other != cpu :: DeltaCell(data, k, other, "b").value == 0.0
  {
    if lo >= 0.0 {
      var parts, m, r := Fraction(lo, hi, cpu != CPU0, 100.0);
      data := DataWith(cpu, k, parts, m);
      WitnessDeltas(data, cpu, k, parts, m, r);
    } else {
      data := DataWith(cpu, k, 1, 0);
      WitnessDeltas(data, cpu, k, 1, 0, 0.0);
    }
  }

  lemma WitnessDeltas(data: Dataset, cpu: Cpu, k: Key, parts: nat, m: nat, r: real)
    requires parts > 0 && (cpu != CPU0 ==> m < parts)
    requires r == 100.0 * (m as real / parts as real)
    requires RunsOf(data, k, cpu) == TwoRuns(cpu, parts, m)
    requires forall other: Cpu | other != cpu :: RunsOf(data, k, other) == TwoRuns(other, 1, 0)
    ensures DeltaCell(data, k, cpu, "b") == Some(r)
    ensures forall other: Cpu | other != cpu :: DeltaCell(data, k, other, "b") == Some(0.0)
  {
    TwoRunsDelta(data, k, cpu, parts, m, r);
    forall other: Cpu | other != cpu ensures DeltaCell(data, k, other, "b") == Some(0.0) {
      TwoRunsDelta(data, k, other, 1, 0, 0.0);
    }
  }

  function DataWith(cpu: Cpu, k: Key, parts: nat, m: nat): (data: Dataset)
    requires cpu != CPU0 ==> m < parts
    ensures RunsOf(data, k, cpu) == TwoRuns(cpu, parts, m)
    ensures forall other: Cpu | other != cpu :: RunsOf(data, k, other) == TwoRuns(other, 1, 0)
  {
    var of := (c: Cpu) => if c == cpu then TwoRuns(cpu, parts, m) else TwoRuns(c, 1, 0);
    map[k := map[CPU0 := of(CPU0), CPU1 := of(CPU1), CPU2 := of(CPU2)]]
  }
}
