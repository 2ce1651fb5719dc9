/** The decision graph of one benchmark (DAAT-MCS_tuner.py, `build_decision_tree_for_benchmark`,
    `layered_positions` and the bucketing of `plot_trees_grid`). */
module DecisionTree {
  import opened Wrappers
  import ConfigOrder
  import Sorting

  datatype Style = Style(ok: real, bad: real, shadow: real)

  /** `Bare` is a node that networkx creates by itself for a missing edge end. */
  datatype Attrs = Attrs(layer: nat, caption: string, alpha: real, cls: Option<nat>) | Bare

  type Edges = map<(string, string), nat>

  class DiGraph {
    var nodes: map<string, Attrs>
    var edges: Edges

    constructor ()
      ensures nodes == map[] && edges == map[]
    {
      nodes, edges := map[], map[];
    }

    method AddNode(n: string, a: Attrs)
      modifies this
      ensures nodes == old(nodes)[n := a] && edges == old(edges)
    {
      nodes := nodes[n := a];
    }

    method AddEdge(u: string, v: string, cls: nat)
      modifies this
      ensures edges == old(edges)[(u, v) := cls]
      ensures nodes == map[u := Bare, v := Bare] + old(nodes)
    {
      if u !in nodes {
        nodes := nodes[u := Bare];
      }
      if v !in nodes {
        nodes := nodes[v := Bare];
      }
      edges := edges[(u, v) := cls];
    }
  }

  // ---- node names

  const ROOT := "ROOT"

  function NodeName(level: nat, cfg: string): string
    requires level < 3
  {
    ['L', ('0' as nat + level) as char, '_'] + cfg
  }

  /** The level and configuration a node name stands for. */
  function ParseName(n: string): Option<(nat, string)> {
    if |n| >= 3 && n[0] == 'L' && '0' <= n[1] <= '2' && n[2] == '_'
    then Some((n[1] as nat - '0' as nat, n[3..])) else None
  }

  lemma NameRoundTrip(level: nat, cfg: string)
    requires level < 3
    ensures ParseName(NodeName(level, cfg)) == Some((level, cfg))
    ensures NodeName(level, cfg) != ROOT
  {
    assert NodeName(level, cfg)[3..] == cfg;
    assert ROOT[0] == 'R' && NodeName(level, cfg)[0] == 'L';
  }

  lemma ParsedIsName(n: string)
    ensures ParseName(n).Some? ==> ParseName(n).value.0 < 3 && n == NodeName(ParseName(n).value.0, ParseName(n).value.1)
    ensures ParseName(ROOT).None?
  {
    assert ROOT[0] == 'R';
    if ParseName(n).Some? { assert n == n[..3] + n[3..]; }
  }

  // ---- the class dictionaries

  /** A dictionary built from parallel lists: for a repeated key the last entry wins. */
  function Dict(cfgs: seq<string>, col: seq<Option<nat>>): map<string, Option<nat>>
    requires |cfgs| == |col|
  {
    if cfgs == [] then map[]
    else Dict(cfgs[..|cfgs| - 1], col[..|cfgs| - 1])[cfgs[|cfgs| - 1] := col[|cfgs| - 1]]
  }

  lemma {:induction false} DictAt(cfgs: seq<string>, col: seq<Option<nat>>, i: nat)
    requires |cfgs| == |col| && i < |cfgs|
    requires forall j | i < j < |cfgs| :: cfgs[j] != cfgs[i]
    ensures cfgs[i] in Dict(cfgs, col) && Dict(cfgs, col)[cfgs[i]] == col[i]
  {
    var n := |cfgs| - 1;
    if i < n { DictAt(cfgs[..n], col[..n], i); }
  }

  lemma {:induction false} DictValues(cfgs: seq<string>, col: seq<Option<nat>>, c: string)
    requires |cfgs| == |col| && c in Dict(cfgs, col)
    ensures Dict(cfgs, col)[c] in col
  {
    var n := |cfgs| - 1;
    if c != cfgs[n] { DictValues(cfgs[..n], col[..n], c); }
  }

  /** The three class dictionaries of one benchmark. */
  datatype Verdicts = Verdicts(k0: map<string, Option<nat>>, k1: map<string, Option<nat>>,
                               k2: map<string, Option<nat>>) {
    function At(level: nat, c: string): Option<nat>
      requires level < 3
    {
      var k := if level == 0 then k0 else if level == 1 then k1 else k2;
      if c in k then k[c] else None
    }

    predicate Passes(level: nat, c: string)
      requires level < 3
    {
      At(level, c).Some? && At(level, c).value <= 1
    }

    /** All the levels before this one are passed. */
    predicate Open(level: nat, c: string)
      requires level < 3
    {
      (level >= 1 ==> Passes(0, c)) && (level >= 2 ==> Passes(1, c))
    }

    /** Class matrices only hold 0, 1 and 2. */
    ghost predicate Proper() {
      forall level: nat, c | level < 3 && At(level, c).Some? :: At(level, c).value <= 2
    }
  }

  // ---- what the graph must be

  function Alpha(k: nat, style: Style): real {
    if k <= 1 then style.ok else style.bad
  }

  /** The attributes the code gives to the node of `c` at this level. */
  function NodeAttrs(v: Verdicts, level: nat, c: string, style: Style): Attrs
    requires level < 3 && v.At(level, c).Some?
  {
    var k := v.At(level, c).value;
    var shadowed := match level
      case 0 => false
      case 1 => v.At(0, c).None? || v.At(0, c).value == 2
      case _ => !v.Open(2, c);
    if shadowed then Attrs(level + 1, ConfigOrder.Label(c), style.shadow, Some(2))
    else Attrs(level + 1, ConfigOrder.Label(c), Alpha(k, style), Some(k))
  }

  /** Which configurations each of the three loops has handled. */
  datatype Done = Done(d0: set<string>, d1: set<string>, d2: set<string>) {
    function At(level: nat): set<string>
      requires level < 3
    {
      if level == 0 then d0 else if level == 1 then d1 else d2
    }

    function Add(level: nat, c: string): Done
      requires level < 3
    {
      if level == 0 then Done(d0 + {c}, d1, d2)
      else if level == 1 then Done(d0, d1 + {c}, d2)
      else Done(d0, d1, d2 + {c})
    }
  }

  function ExpectedNode(n: string, v: Verdicts, done: Done, style: Style): Option<Attrs> {
    if n == ROOT then Some(Attrs(0, "", 1.0, None))
    else
      var p := ParseName(n);
      if p.Some? && p.value.1 in done.At(p.value.0) && v.At(p.value.0, p.value.1).Some?
      then Some(NodeAttrs(v, p.value.0, p.value.1, style))
      else None
  }

  function Parent(level: nat, c: string): string
    requires level < 3
  {
    if level == 0 then ROOT else NodeName(level - 1, c)
  }

  function ExpectedEdge(u: string, w: string, v: Verdicts, done: Done): Option<nat> {
    var p := ParseName(w);
    if p.Some? && u == Parent(p.value.0, p.value.1) && p.value.1 in done.At(p.value.0)
       && v.At(p.value.0, p.value.1).Some? && v.Open(p.value.0, p.value.1)
    then v.At(p.value.0, p.value.1)
    else None
  }

  function NodeIn(nodes: map<string, Attrs>, n: string): Option<Attrs> {
    if n in nodes then Some(nodes[n]) else None
  }

  function EdgeIn(edges: Edges, u: string, w: string): Option<nat> {
    if (u, w) in edges then Some(edges[(u, w)]) else None
  }

  ghost predicate IsTree(nodes: map<string, Attrs>, edges: Edges, v: Verdicts, done: Done, style: Style) {
    && (forall n: string :: NodeIn(nodes, n) == ExpectedNode(n, v, done, style))
    && (forall u: string, w: string :: EdgeIn(edges, u, w) == ExpectedEdge(u, w, v, done))
  }

  /** The graph for a list of configurations. */
  ghost predicate IsTreeOf(nodes: map<string, Attrs>, edges: Edges, v: Verdicts, cfgs: seq<string>, style: Style) {
    IsTree(nodes, edges, v, Done(Listed(cfgs), Listed(cfgs), Listed(cfgs)), style)
  }

  // ---- the builder

  method Classes(mat: array2<Option<nat>>, j: nat, cfgs: seq<string>) returns (k: map<string, Option<nat>>)
    requires mat.Length0 == |cfgs| && j < mat.Length1
    ensures k == Dict(cfgs, ColumnOf(mat, j))
  {
    k := map[];
    ghost var col := ColumnOf(mat, j);
    for i := 0 to |cfgs|
      invariant k == Dict(cfgs[..i], col[..i])
    {
      k := k[cfgs[i] := mat[i, j]];
      assert cfgs[..i + 1][..i] == cfgs[..i] && col[..i + 1][..i] == col[..i];
    }
    assert cfgs[..|cfgs|] == cfgs && col[..|cfgs|] == col;
  }

  ghost function ColumnOf(mat: array2<Option<nat>>, j: nat): (col: seq<Option<nat>>)
    requires j < mat.Length1
    reads mat
    ensures |col| == mat.Length0
    ensures forall i | 0 <= i < mat.Length0 :: col[i] == mat[i, j]
  {
    seq(mat.Length0, i requires 0 <= i < mat.Length0 reads mat => mat[i, j])
  }

  method BuildTree(c0: array2<Option<nat>>, c1: array2<Option<nat>>, c2: array2<Option<nat>>,
                   j: nat, cfgs: seq<string>, style: Style)
    returns (g: DiGraph, ordered: seq<string>)
    requires c0.Length0 == c1.Length0 == c2.Length0 == |cfgs|
    requires j < c0.Length1 && j < c1.Length1 && j < c2.Length1
    ensures fresh(g)
    ensures IsTreeOf(g.nodes, g.edges,
              Verdicts(Dict(cfgs, ColumnOf(c0, j)), Dict(cfgs, ColumnOf(c1, j)), Dict(cfgs, ColumnOf(c2, j))),
              cfgs, style)
    ensures ordered == Sorting.Sort(ConfigOrder.Before, cfgs)
  {
    var k0 := Classes(c0, j, cfgs);
    var k1 := Classes(c1, j, cfgs);
    var k2 := Classes(c2, j, cfgs);
    var v := Verdicts(k0, k1, k2);
    g := new DiGraph();
    g.AddNode(ROOT, Attrs(0, "", 1.0, None));
    assert IsTree(g.nodes, g.edges, v, Done({}, {}, {}), style);
    AddAll0(g, v, cfgs, style);
    AddAll1(g, v, cfgs, style);
    AddAll2(g, v, cfgs, style);
    ordered := Sorting.Sort(ConfigOrder.Before, cfgs);
  }

  function Listed(cfgs: seq<string>): set<string> {
    set c | c in cfgs
  }

  lemma ListedSnoc(cfgs: seq<string>, i: nat)
    requires i < |cfgs|
    ensures Listed(cfgs[..i + 1]) == Listed(cfgs[..i]) + {cfgs[i]} && cfgs[i] in Listed(cfgs)
  {
    assert cfgs[..i + 1] == cfgs[..i] + [cfgs[i]];
  }

  method AddAll0(g: DiGraph, v: Verdicts, cfgs: seq<string>, style: Style)
    requires IsTree(g.nodes, g.edges, v, Done({}, {}, {}), style)
    modifies g
    ensures IsTree(g.nodes, g.edges, v, Done(Listed(cfgs), {}, {}), style)
  {
    for i := 0 to |cfgs|
      invariant IsTree(g.nodes, g.edges, v, Done(Listed(cfgs[..i]), {}, {}), style)
    {
      AddLevel0(g, v, cfgs[i], style, Done(Listed(cfgs[..i]), {}, {}));
      ListedSnoc(cfgs, i);
    }
    assert cfgs[..|cfgs|] == cfgs;
  }

  method AddAll1(g: DiGraph, v: Verdicts, cfgs: seq<string>, style: Style)
    requires IsTree(g.nodes, g.edges, v, Done(Listed(cfgs), {}, {}), style)
    modifies g
    ensures IsTree(g.nodes, g.edges, v, Done(Listed(cfgs), Listed(cfgs), {}), style)
  {
    for i := 0 to |cfgs|
      invariant IsTree(g.nodes, g.edges, v, Done(Listed(cfgs), Listed(cfgs[..i]), {}), style)
    {
      ListedSnoc(cfgs, i);
      AddLevel1(g, v, cfgs[i], style, Done(Listed(cfgs), Listed(cfgs[..i]), {}));
    }
    assert cfgs[..|cfgs|] == cfgs;
  }

  method AddAll2(g: DiGraph, v: Verdicts, cfgs: seq<string>, style: Style)
    requires IsTree(g.nodes, g.edges, v, Done(Listed(cfgs), Listed(cfgs), {}), style)
    modifies g
    ensures IsTree(g.nodes, g.edges, v, Done(Listed(cfgs), Listed(cfgs), Listed(cfgs)), style)
  {
    for i := 0 to |cfgs|
      invariant IsTree(g.nodes, g.edges, v, Done(Listed(cfgs), Listed(cfgs), Listed(cfgs[..i])), style)
    {
      ListedSnoc(cfgs, i);
      AddLevel2(g, v, cfgs[i], style, Done(Listed(cfgs), Listed(cfgs), Listed(cfgs[..i])));
    }
    assert cfgs[..|cfgs|] == cfgs;
  }

  method AddLevel0(g: DiGraph, v: Verdicts, cfg: string, style: Style, ghost done: Done)
    requires IsTree(g.nodes, g.edges, v, done, style)
    modifies g
    ensures IsTree(g.nodes, g.edges, v, done.Add(0, cfg), style)
  {
    var k0 := v.At(0, cfg);
    ghost var nodes, edges := g.nodes, g.edges;
    if k0.None? {
      SkipKeepsTree(nodes, edges, v, done, style, 0, cfg);
      return;
    }
    var alpha := if k0.value <= 1 then style.ok else style.bad;
    g.AddNode(NodeName(0, cfg), Attrs(1, ConfigOrder.Label(cfg), alpha, Some(k0.value)));
    assert NodeIn(nodes, ROOT).Some?;
    g.AddEdge(ROOT, NodeName(0, cfg), k0.value);
    assert g.nodes == nodes[NodeName(0, cfg) := NodeAttrs(v, 0, cfg, style)];
    StepKeepsTree(nodes, edges, v, done, style, 0, cfg, g.nodes, g.edges);
  }

  method AddLevel1(g: DiGraph, v: Verdicts, cfg: string, style: Style, ghost done: Done)
    requires IsTree(g.nodes, g.edges, v, done, style)
    requires cfg in done.d0
    modifies g
    ensures IsTree(g.nodes, g.edges, v, done.Add(1, cfg), style)
  {
    var k1 := v.At(1, cfg);
    ghost var nodes, edges := g.nodes, g.edges;
    if k1.None? {
      SkipKeepsTree(nodes, edges, v, done, style, 1, cfg);
      return;
    }
    var k0 := v.At(0, cfg);
    var alpha, cls := style.shadow, 2;
    if !(k0.None? || k0.value == 2) {
      alpha := if k1.value <= 1 then style.ok else style.bad;
      cls := k1.value;
    }
    g.AddNode(NodeName(1, cfg), Attrs(2, ConfigOrder.Label(cfg), alpha, Some(cls)));
    if k0.Some? && k0.value <= 1 {
      NameRoundTrip(0, cfg);
      assert NodeIn(nodes, NodeName(0, cfg)).Some?;
      g.AddEdge(NodeName(0, cfg), NodeName(1, cfg), k1.value);
    }
    assert g.nodes == nodes[NodeName(1, cfg) := NodeAttrs(v, 1, cfg, style)];
    StepKeepsTree(nodes, edges, v, done, style, 1, cfg, g.nodes, g.edges);
  }

  method AddLevel2(g: DiGraph, v: Verdicts, cfg: string, style: Style, ghost done: Done)
    requires IsTree(g.nodes, g.edges, v, done, style)
    requires cfg in done.d0 && cfg in done.d1
    modifies g
    ensures IsTree(g.nodes, g.edges, v, done.Add(2, cfg), style)
  {
    var k2 := v.At(2, cfg);
    ghost var nodes, edges := g.nodes, g.edges;
    if k2.None? {
      SkipKeepsTree(nodes, edges, v, done, style, 2, cfg);
      return;
    }
    var k1, k0 := v.At(1, cfg), v.At(0, cfg);
    var reachable := k0.Some? && k0.value <= 1 && k1.Some? && k1.value <= 1;
    var alpha, cls := style.shadow, 2;
    if reachable {
      alpha := if k2.value <= 1 then style.ok else style.bad;
      cls := k2.value;
    }
    g.AddNode(NodeName(2, cfg), Attrs(3, ConfigOrder.Label(cfg), alpha, Some(cls)));
    if reachable {
      NameRoundTrip(1, cfg);
      assert NodeIn(nodes, NodeName(1, cfg)).Some?;
      g.AddEdge(NodeName(1, cfg), NodeName(2, cfg), k2.value);
    }
    assert g.nodes == nodes[NodeName(2, cfg) := NodeAttrs(v, 2, cfg, style)];
    StepKeepsTree(nodes, edges, v, done, style, 2, cfg, g.nodes, g.edges);
  }

  /** A configuration without a class at this level adds nothing. */
  lemma SkipKeepsTree(nodes: map<string, Attrs>, edges: Edges, v: Verdicts, done: Done, style: Style, level: nat,
                      cfg: string)
    requires level < 3 && v.At(level, cfg).None?
    requires IsTree(nodes, edges, v, done, style)
    ensures IsTree(nodes, edges, v, done.Add(level, cfg), style)
  {
    forall n: string ensures NodeIn(nodes, n) == ExpectedNode(n, v, done.Add(level, cfg), style) {
      assert NodeIn(nodes, n) == ExpectedNode(n, v, done, style);
    }
    forall u: string, w: string ensures EdgeIn(edges, u, w) == ExpectedEdge(u, w, v, done.Add(level, cfg)) {
      assert EdgeIn(edges, u, w) == ExpectedEdge(u, w, v, done);
    }
  }

  /** One node, and one edge when the path so far is open. */
  lemma StepKeepsTree(nodes: map<string, Attrs>, edges: Edges, v: Verdicts, done: Done, style: Style, level: nat,
                      cfg: string, nodes': map<string, Attrs>, edges': Edges)
    requires level < 3 && v.At(level, cfg).Some?
    requires IsTree(nodes, edges, v, done, style)
    requires nodes' == nodes[NodeName(level, cfg) := NodeAttrs(v, level, cfg, style)]
    requires edges' == if v.Open(level, cfg)
                       then edges[(Parent(level, cfg), NodeName(level, cfg)) := v.At(level, cfg).value] else edges
    ensures IsTree(nodes', edges', v, done.Add(level, cfg), style)
  {
    forall n: string ensures NodeIn(nodes', n) == ExpectedNode(n, v, done.Add(level, cfg), style) {
      assert NodeIn(nodes, n) == ExpectedNode(n, v, done, style);
      NodeExpected(n, v, done, style, level, cfg);
    }
    forall u: string, w: string ensures EdgeIn(edges', u, w) == ExpectedEdge(u, w, v, done.Add(level, cfg)) {
      assert EdgeIn(edges, u, w) == ExpectedEdge(u, w, v, done);
      EdgeExpected(u, w, v, done, level, cfg);
    }
  }

  lemma NodeExpected(n: string, v: Verdicts, done: Done, style: Style, level: nat, cfg: string)
    requires level < 3 && v.At(level, cfg).Some?
    ensures ExpectedNode(n, v, done.Add(level, cfg), style) ==
            if n == NodeName(level, cfg) then Some(NodeAttrs(v, level, cfg, style)) else ExpectedNode(n, v, done, style)
  {
    NameRoundTrip(level, cfg);
    ParsedIsName(n);
  }

  lemma EdgeExpected(u: string, w: string, v: Verdicts, done: Done, level: nat, cfg: string)
    requires level < 3 && v.At(level, cfg).Some?
    ensures ExpectedEdge(u, w, v, done.Add(level, cfg)) ==
            if v.Open(level, cfg) && u == Parent(level, cfg) && w == NodeName(level, cfg)
            then Some(v.At(level, cfg).value) else ExpectedEdge(u, w, v, done)
  {
    NameRoundTrip(level, cfg);
    ParsedIsName(w);
  }
}
