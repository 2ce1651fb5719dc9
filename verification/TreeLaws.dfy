/** What the decision graph means, and how it is laid out and coloured. */
module TreeLaws {
  import opened Lists
  import opened Wrappers
  import opened DecisionTree
  import ConfigOrder
  import Sorting
  import Strings

  // ---- reachability

  ghost predicate IsPath(edges: Edges, p: seq<string>) {
    && p != [] && p[0] == ROOT
    && forall i | 0 <= i < |p| - 1 :: (p[i], p[i + 1]) in edges
  }

  ghost predicate Reachable(edges: Edges, n: string) {
    exists p :: IsPath(edges, p) && p[|p| - 1] == n
  }

  /** Reachable over edges of class 0 or 1 only. */
  ghost predicate Passable(edges: Edges, n: string) {
    exists p :: IsPath(edges, p) && p[|p| - 1] == n && forall i | 0 <= i < |p| - 1 :: edges[(p[i], p[i + 1])] <= 1
  }

  function PathTo(level: nat, c: string): seq<string>
    requires level < 3
  {
    (if level == 0 then [ROOT] else PathTo(level - 1, c)) + [NodeName(level, c)]
  }

  /** Every edge goes from a declared node to a declared node of the next layer, belongs to one
      configuration, and carries the class of its lower end; so a node has at most one parent. */
  lemma EdgeShape(nodes: map<string, Attrs>, edges: Edges, v: Verdicts, cfgs: seq<string>, style: Style, u: string,
                  w: string)
    requires IsTreeOf(nodes, edges, v, cfgs, style) && (u, w) in edges
    ensures u in nodes && w in nodes && nodes[u].Attrs? && nodes[w].Attrs?
    ensures nodes[w].layer == nodes[u].layer + 1
    ensures exists level: nat, c :: level < 3 && c in cfgs && w == NodeName(level, c) && u == Parent(level, c)
                                    && v.At(level, c) == Some(edges[(u, w)]) && v.Open(level, c)
    ensures forall u' | (u', w) in edges :: u' == u
  {
    var done := Done(Listed(cfgs), Listed(cfgs), Listed(cfgs));
    assert EdgeIn(edges, u, w) == ExpectedEdge(u, w, v, done);
    ParsedIsName(w);
    var level, c := ParseName(w).value.0, ParseName(w).value.1;
    assert NodeIn(nodes, w) == ExpectedNode(w, v, done, style);
    assert NodeIn(nodes, u) == ExpectedNode(u, v, done, style);
    if level > 0 { NameRoundTrip(level - 1, c); }
    NameRoundTrip(level, c);
    forall u' | (u', w) in edges ensures u' == u {
      assert EdgeIn(edges, u', w) == ExpectedEdge(u', w, v, done);
    }
  }

  /** The node of a configuration at a level exists exactly when the class there is known. */
  lemma NodeOf(nodes: map<string, Attrs>, edges: Edges, v: Verdicts, cfgs: seq<string>, style: Style, level: nat,
               c: string)
    requires IsTreeOf(nodes, edges, v, cfgs, style) && level < 3 && c in cfgs
    ensures NodeName(level, c) in nodes <==> v.At(level, c).Some?
    ensures v.At(level, c).Some? ==> nodes[NodeName(level, c)] == NodeAttrs(v, level, c, style)
    ensures (Parent(level, c), NodeName(level, c)) in edges <==> v.At(level, c).Some? && v.Open(level, c)
    ensures v.At(level, c).Some? && v.Open(level, c) ==>
              edges[(Parent(level, c), NodeName(level, c))] == v.At(level, c).value
  {
    var done := Done(Listed(cfgs), Listed(cfgs), Listed(cfgs));
    NameRoundTrip(level, c);
    assert NodeIn(nodes, NodeName(level, c)) == ExpectedNode(NodeName(level, c), v, done, style);
    assert EdgeIn(edges, Parent(level, c), NodeName(level, c)) ==
           ExpectedEdge(Parent(level, c), NodeName(level, c), v, done);
  }

  lemma {:induction false} PathExists(nodes: map<string, Attrs>, edges: Edges, v: Verdicts, cfgs: seq<string>,
                                      style: Style, level: nat, c: string)
    requires IsTreeOf(nodes, edges, v, cfgs, style) && level < 3 && c in cfgs
    requires v.At(level, c).Some? && v.Open(level, c)
    ensures IsPath(edges, PathTo(level, c)) && PathTo(level, c)[|PathTo(level, c)| - 1] == NodeName(level, c)
    ensures var p := PathTo(level, c); forall i | 0 <= i < |p| - 2 :: edges[(p[i], p[i + 1])] <= 1
    ensures var p := PathTo(level, c); |p| >= 2 && edges[(p[|p| - 2], p[|p| - 1])] == v.At(level, c).value
  {
    NodeOf(nodes, edges, v, cfgs, style, level, c);
    if level > 0 { PathExists(nodes, edges, v, cfgs, style, level - 1, c); }
  }

  /** A node of the graph is reachable from ROOT exactly when every earlier level was passed. */
  lemma ReachableIffOpen(nodes: map<string, Attrs>, edges: Edges, v: Verdicts, cfgs: seq<string>, style: Style,
                         level: nat, c: string)
    requires IsTreeOf(nodes, edges, v, cfgs, style) && level < 3 && c in cfgs && NodeName(level, c) in nodes
    ensures Reachable(edges, NodeName(level, c)) <==> v.Open(level, c)
  {
    NodeOf(nodes, edges, v, cfgs, style, level, c);
    NameRoundTrip(level, c);
    if v.Open(level, c) {
      PathExists(nodes, edges, v, cfgs, style, level, c);
    }
    forall p | IsPath(edges, p) && p[|p| - 1] == NodeName(level, c) ensures v.Open(level, c) {
      LastEdge(nodes, edges, v, cfgs, style, level, c, p);
    }
  }

  /** A path ends with the one edge into its last node. */
  lemma LastEdge(nodes: map<string, Attrs>, edges: Edges, v: Verdicts, cfgs: seq<string>, style: Style, level: nat,
                 c: string, p: seq<string>)
    requires IsTreeOf(nodes, edges, v, cfgs, style) && level < 3 && c in cfgs
    requires IsPath(edges, p) && p[|p| - 1] == NodeName(level, c)
    ensures |p| >= 2 && p[|p| - 2] == Parent(level, c) && v.Open(level, c)
    ensures v.At(level, c) == Some(edges[(p[|p| - 2], p[|p| - 1])])
  {
    NameRoundTrip(level, c);
    assert |p| >= 2;
    var u, w := p[|p| - 2], p[|p| - 1];
    assert (p[|p| - 2], p[|p| - 2 + 1]) in edges;
    var all := Listed(cfgs);
    assert EdgeIn(edges, u, w) == ExpectedEdge(u, w, v, Done(all, all, all));
  }

  /** The class of the configuration at this level is at most 1. */
  predicate PassedAt(v: Verdicts, level: nat, c: string)
    requires level < 3
  {
    v.At(level, c).Some? && v.At(level, c).value <= 1
  }

  /** All the levels before this one have class at most 1. */
  predicate PassedBefore(v: Verdicts, level: nat, c: string)
    requires level < 3
  {
    forall l: nat | l < level :: PassedAt(v, l, c)
  }

  /** What a node shows, with proper classes and three different opacities.  Its layer and caption are those
      of its level and configuration; behind levels that all pass it has the ok opacity for a class of at
      most 1, the bad one for class 2, and keeps its class; otherwise it is a shadow of class 2. */
  lemma NodeMeaning(nodes: map<string, Attrs>, edges: Edges, v: Verdicts, cfgs: seq<string>, style: Style,
                    level: nat, c: string)
    requires IsTreeOf(nodes, edges, v, cfgs, style) && level < 3 && c in cfgs && NodeName(level, c) in nodes
    requires v.Proper() && style.shadow != style.ok && style.shadow != style.bad && style.ok != style.bad
    ensures v.At(level, c).Some?
    ensures var a := nodes[NodeName(level, c)];
            && a.Attrs? && a.layer == level + 1 && a.caption == ConfigOrder.Label(c)
            && (a.alpha == style.ok <==> PassedBefore(v, level, c) && v.At(level, c).value <= 1)
            && (a.alpha == style.bad <==> PassedBefore(v, level, c) && v.At(level, c).value == 2)
            && (a.alpha == style.shadow <==> !PassedBefore(v, level, c))
            && a.cls == (if PassedBefore(v, level, c) then v.At(level, c) else Some(2))
  {
    NodeOf(nodes, edges, v, cfgs, style, level, c);
    assert v.At(level, c).value <= 2;
    if v.At(0, c).Some? { assert v.At(0, c).value <= 2; }
    OpenMeaning(v, level, c);
  }

  lemma OpenMeaning(v: Verdicts, level: nat, c: string)
    requires level < 3
    ensures v.Open(level, c) <==> PassedBefore(v, level, c)
  {
    if v.Open(level, c) {
      forall l: nat | l < level ensures PassedAt(v, l, c) { assert l == 0 || l == 1; }
    }
    if PassedBefore(v, level, c) {
      assert level >= 1 ==> PassedAt(v, 0, c);
      assert level >= 2 ==> PassedAt(v, 1, c);
    }
  }

  /** In terms of the drawing: with proper classes and a shadow opacity of its own, a configuration's
      node is reachable exactly when it is not drawn as a shadow. */
  lemma ReachableIffNotShadow(nodes: map<string, Attrs>, edges: Edges, v: Verdicts, cfgs: seq<string>, style: Style,
                              level: nat, c: string)
    requires IsTreeOf(nodes, edges, v, cfgs, style) && level < 3 && c in cfgs && NodeName(level, c) in nodes
    requires v.Proper() && style.shadow != style.ok && style.shadow != style.bad
    ensures nodes[NodeName(level, c)].Attrs?
    ensures Reachable(edges, NodeName(level, c)) <==> nodes[NodeName(level, c)].alpha != style.shadow
  {
    ReachableIffOpen(nodes, edges, v, cfgs, style, level, c);
    NodeOf(nodes, edges, v, cfgs, style, level, c);
    if v.At(0, c).Some? { assert v.At(0, c).value <= 2; }
  }

  /** The graph's answer: a ROOT-L0-L1-L2 path of edges of class at most 1 exists exactly when all three
      CPUs have class at most 1, which is exactly when the L2 node is there with class at most 1. */
  lemma PassableIffAccepted(nodes: map<string, Attrs>, edges: Edges, v: Verdicts, cfgs: seq<string>, style: Style,
                            c: string)
    requires IsTreeOf(nodes, edges, v, cfgs, style) && c in cfgs
    ensures Passable(edges, NodeName(2, c)) <==> v.Passes(0, c) && v.Passes(1, c) && v.Passes(2, c)
    ensures Passable(edges, NodeName(2, c)) <==>
            NodeName(2, c) in nodes && nodes[NodeName(2, c)].Attrs? && nodes[NodeName(2, c)].cls.Some? &&
              nodes[NodeName(2, c)].cls.value <= 1
  {
    NodeOf(nodes, edges, v, cfgs, style, 2, c);
    if v.Passes(0, c) && v.Passes(1, c) && v.Passes(2, c) {
      PathExists(nodes, edges, v, cfgs, style, 2, c);
      var p := PathTo(2, c);
      forall i | 0 <= i < |p| - 1 ensures edges[(p[i], p[i + 1])] <= 1 {
        if i == |p| - 2 { assert edges[(p[|p| - 2], p[|p| - 1])] <= 1; }
      }
    }
    forall p | IsPath(edges, p) && p[|p| - 1] == NodeName(2, c)
               && forall i | 0 <= i < |p| - 1 :: edges[(p[i], p[i + 1])] <= 1
      ensures v.Passes(0, c) && v.Passes(1, c) && v.Passes(2, c)
    {
      LastEdge(nodes, edges, v, cfgs, style, 2, c, p);
      assert edges[(p[|p| - 2], p[|p| - 2 + 1])] <= 1;
    }
  }

  // ---- layout

  /** `n.split("_", 1)[1]`, or the whole name when it has no underscore. */
  function AfterUnderscore(n: string): string {
    var k := FirstUnderscore(n);
    if k == |n| then n else n[k + 1..]
  }

  function FirstUnderscore(n: string): (k: nat)
    ensures k <= |n|
    ensures forall i | 0 <= i < k :: n[i] != '_'
    ensures k < |n| ==> n[k] == '_'
  {
    if n == "" || n[0] == '_' then 0 else 1 + FirstUnderscore(n[1..])
  }

  /** The configuration is read back from a node name, underscores and all. */
  lemma ConfigRecovered(level: nat, c: string)
    requires level < 3
    ensures AfterUnderscore(NodeName(level, c)) == c
  {
    var n := NodeName(level, c);
    assert n[0] == 'L' && n[1] != '_' && n[2] == '_';
    var k := FirstUnderscore(n);
    assert k == 2;
    assert n[3..] == c;
  }

  /** The row dictionary: a repeated configuration keeps its last row. */
  function Row(ordered: seq<string>, cfg: string): real {
    RowFrom(ordered, cfg, |ordered|)
  }

  function RowFrom(ordered: seq<string>, cfg: string, k: nat): real
    requires k <= |ordered|
  {
    if k == 0 then 0.0
    else if ordered[k - 1] == cfg then (|ordered| - 1 - (k - 1)) as real
    else RowFrom(ordered, cfg, k - 1)
  }

  function LayerX(layer: nat): real {
    if layer <= 3 then layer as real * 0.5 else layer as real
  }

  function Position(n: string, a: Attrs, ordered: seq<string>): (real, real) {
    (LayerX(if a.Attrs? then a.layer else 0),
     if n == ROOT then (if ordered == [] then 0.0 else (|ordered| - 1) as real / 2.0)
     else Row(ordered, AfterUnderscore(n)))
  }

  method RowDict(ordered: seq<string>) returns (rows: map<string, real>)
    ensures forall c: string :: Row(ordered, c) == if c in rows then rows[c] else 0.0
  {
    rows := map[];
    for i := 0 to |ordered|
      invariant forall c: string :: RowFrom(ordered, c, i) == if c in rows then rows[c] else 0.0
    {
      rows := rows[ordered[i] := (|ordered| - 1 - i) as real];
    }
  }

  method LayeredPositions(g: DiGraph, ordered: seq<string>) returns (pos: map<string, (real, real)>)
    ensures pos.Keys == g.nodes.Keys
    ensures forall n | n in pos :: pos[n] == Position(n, g.nodes[n], ordered)
  {
    var rows := RowDict(ordered);
    pos := map[];
    var rest := g.nodes.Keys;
    while rest != {}
      invariant rest <= g.nodes.Keys
      invariant pos.Keys == g.nodes.Keys - rest
      invariant forall n | n in pos :: pos[n] == Position(n, g.nodes[n], ordered)
      decreases |rest|
    {
      var n :| n in rest;
      rest := rest - {n};
      var a := g.nodes[n];
      var x := LayerX(if a.Attrs? then a.layer else 0);
      var y;
      if n == ROOT {
        y := if |ordered| > 0 then (|ordered| - 1) as real / 2.0 else 0.0;
      } else {
        var cfg := AfterUnderscore(n);
        assert Row(ordered, cfg) == if cfg in rows then rows[cfg] else 0.0;
        y := if cfg in rows then rows[cfg] else 0.0;
      }
      pos := pos[n := (x, y)];
    }
  }

  lemma {:induction false} RowAt(ordered: seq<string>, i: nat, k: nat)
    requires i < k <= |ordered|
    requires Distinct(ordered)
    ensures RowFrom(ordered, ordered[i], k) == (|ordered| - 1 - i) as real
  {
    if i < k - 1 { RowAt(ordered, i, k - 1); }
  }

  /** Where a node is drawn: its level, halved, to the right, and one row per configuration, the first of
      the order at the top; ROOT stands left of the middle. */
  lemma PositionMeaning(ordered: seq<string>, i: nat, level: nat, a: Attrs)
    requires i < |ordered| && Distinct(ordered) && level < 3 && a.Attrs?
    ensures a.layer == level + 1 ==>
              Position(NodeName(level, ordered[i]), a, ordered) ==
                ((level + 1) as real / 2.0, (|ordered| - 1 - i) as real)
    ensures a.layer == 0 ==> Position(ROOT, a, ordered) == (0.0, (|ordered| - 1) as real / 2.0)
  {
    NameRoundTrip(level, ordered[i]);
    ConfigRecovered(level, ordered[i]);
    RowAt(ordered, i, |ordered|);
  }

  lemma RowInjective(ordered: seq<string>, c: string, c': string)
    requires c in ordered && c' in ordered
    requires Distinct(ordered)
    ensures Row(ordered, c) == Row(ordered, c') ==> c == c'
  {
    var i :| 0 <= i < |ordered| && ordered[i] == c;
    var j :| 0 <= j < |ordered| && ordered[j] == c';
    RowAt(ordered, i, |ordered|);
    RowAt(ordered, j, |ordered|);
  }

  /** The layout is injective: for duplicate-free configurations, whatever their names, two different
      nodes never land on the same point, and the nodes of one configuration share its row. */
  lemma LayoutInjective(nodes: map<string, Attrs>, edges: Edges, v: Verdicts, cfgs: seq<string>, style: Style,
                        ordered: seq<string>, n: string, n': string)
    requires IsTreeOf(nodes, edges, v, cfgs, style)
    requires Distinct(cfgs)
    requires ordered == Sorting.Sort(ConfigOrder.Before, cfgs)
    requires n in nodes && n' in nodes
    ensures Position(n, nodes[n], ordered) == Position(n', nodes[n'], ordered) ==> n == n'
    ensures n != ROOT && n' != ROOT && AfterUnderscore(n) == AfterUnderscore(n') ==>
              Position(n, nodes[n], ordered).1 == Position(n', nodes[n'], ordered).1
  {
    NodePlaced(nodes, edges, v, cfgs, style, ordered, n);
    NodePlaced(nodes, edges, v, cfgs, style, ordered, n');
    OrderedFacts(cfgs, ordered);
    PointsApart(ordered, n, nodes[n], n', nodes[n']);
  }

  lemma NodePlaced(nodes: map<string, Attrs>, edges: Edges, v: Verdicts, cfgs: seq<string>, style: Style,
                   ordered: seq<string>, n: string)
    requires IsTreeOf(nodes, edges, v, cfgs, style) && n in nodes
    requires ordered == Sorting.Sort(ConfigOrder.Before, cfgs)
    ensures IsPlaced(ordered, n, nodes[n])
  {
    NodeKind(nodes, edges, v, cfgs, style, n);
    Sorting.SortPermutes(ConfigOrder.Before, cfgs);
  }

  lemma OrderedFacts(cfgs: seq<string>, ordered: seq<string>)
    requires Distinct(cfgs)
    requires ordered == Sorting.Sort(ConfigOrder.Before, cfgs)
    ensures Distinct(ordered)
    ensures forall c | c in cfgs :: c in ordered
  {
    Sorting.SortPermutes(ConfigOrder.Before, cfgs);
    SortKeepsDistinct(cfgs, ordered);
  }

  lemma PointsApart(ordered: seq<string>, n: string, a: Attrs, n': string, a': Attrs)
    requires Distinct(ordered)
    requires IsPlaced(ordered, n, a) && IsPlaced(ordered, n', a')
    ensures Position(n, a, ordered) == Position(n', a', ordered) ==> n == n'
    ensures n != ROOT && n' != ROOT && AfterUnderscore(n) == AfterUnderscore(n') ==>
              Position(n, a, ordered).1 == Position(n', a', ordered).1
  {
    var p, p' := Position(n, a, ordered), Position(n', a', ordered);
    LayersApart(a.layer, a'.layer);
    if n != ROOT && n' != ROOT {
      var c, c' := AfterUnderscore(n), AfterUnderscore(n');
      assert p.1 == Row(ordered, c) && p'.1 == Row(ordered, c');
      RowInjective(ordered, c, c');
    }
  }

  /** What the layout needs to know of a node: ROOT in layer 0, a configuration's node in layers 1 to 3. */
  ghost predicate IsPlaced(cfgs: seq<string>, n: string, a: Attrs) {
    && a.Attrs?
    && (n == ROOT ==> a.layer == 0)
    && (n != ROOT ==> 1 <= a.layer <= 3 && AfterUnderscore(n) in cfgs && n == NodeName(a.layer - 1, AfterUnderscore(n)))
  }

  lemma LayersApart(a: nat, b: nat)
    requires a <= 3 && b <= 3
    ensures LayerX(a) == LayerX(b) <==> a == b
  {
  }

  lemma SortKeepsDistinct(s: seq<string>, r: seq<string>)
    requires multiset(r) == multiset(s)
    requires Distinct(s)
    ensures Distinct(r)
  {
    forall a, b | 0 <= a < b < |r| ensures r[a] != r[b] {
      var x := r[a];
      CountOnce(s, x);
      assert r == r[..b] + r[b..];
      assert multiset(r) == multiset(r[..b]) + multiset(r[b..]);
      assert r[a] == r[..b][a] && r[a] in multiset(r[..b]);
      assert r[b] == r[b..][0] && r[b] in multiset(r[b..]);
    }
  }

  lemma {:induction false} CountOnce(s: seq<string>, x: string)
    requires Distinct(s)
    ensures multiset(s)[x] <= 1
  {
    if s != [] {
      var n := |s| - 1;
      CountOnce(s[..n], x);
      assert s == s[..n] + [s[n]];
      if x == s[n] { assert x !in s[..n] && x !in multiset(s[..n]); }
    }
  }

  lemma NodeKind(nodes: map<string, Attrs>, edges: Edges, v: Verdicts, cfgs: seq<string>, style: Style, n: string)
    requires IsTreeOf(nodes, edges, v, cfgs, style) && n in nodes
    ensures nodes[n].Attrs?
    ensures IsPlaced(cfgs, n, nodes[n])
    ensures n != ROOT ==> ParseName(n).Some? && ParseName(n).value.0 < 3 && ParseName(n).value.1 in cfgs
                          && n == NodeName(ParseName(n).value.0, ParseName(n).value.1)
                          && v.At(ParseName(n).value.0, ParseName(n).value.1).Some?
                          && nodes[n] == NodeAttrs(v, ParseName(n).value.0, ParseName(n).value.1, style)
                          && nodes[n].layer == ParseName(n).value.0 + 1
                          && AfterUnderscore(n) == ParseName(n).value.1
  {
    var all := Listed(cfgs);
    assert NodeIn(nodes, n) == ExpectedNode(n, v, Done(all, all, all), style);
    ParsedIsName(n);
    if n != ROOT { ConfigRecovered(ParseName(n).value.0, ParseName(n).value.1); }
  }

  // ---- drawing buckets

  predicate InOk(a: Attrs, style: Style) { a.Attrs? && a.layer != 0 && a.alpha >= style.ok }
  predicate InBad(a: Attrs, style: Style) { a.Attrs? && a.layer != 0 && style.shadow < a.alpha < style.ok }
  predicate InShadow(a: Attrs, style: Style) { a.Attrs? && a.layer != 0 && a.alpha <= style.shadow }

  /** With the opacities in the order of the default style, every configuration's node falls in exactly one
      drawing bucket and is drawn with its own opacity.  With proper classes the ok bucket holds the nodes
      whose class and all classes before it are at most 1, the bad bucket those that pass before and have
      class 2, the shadow bucket the others; and every edge falls in exactly one class pass. */
  lemma BucketsPartition(nodes: map<string, Attrs>, edges: Edges, v: Verdicts, cfgs: seq<string>, style: Style,
                         level: nat, c: string)
    requires IsTreeOf(nodes, edges, v, cfgs, style) && level < 3 && c in cfgs && NodeName(level, c) in nodes
    requires style.shadow < style.bad < style.ok
    ensures var a := nodes[NodeName(level, c)];
            && v.At(level, c).Some? && a.Attrs?
            && multiset{InOk(a, style), InBad(a, style), InShadow(a, style)}[true] == 1
            && a.alpha == (if InOk(a, style) then style.ok else if InBad(a, style) then style.bad else style.shadow)
    ensures var a := nodes[NodeName(level, c)];
            v.Proper() ==>
              && (InOk(a, style) <==> PassedBefore(v, level, c) && v.At(level, c).value <= 1)
              && (InBad(a, style) <==> PassedBefore(v, level, c) && v.At(level, c).value == 2)
              && (InShadow(a, style) <==> !PassedBefore(v, level, c))
    ensures v.Proper() ==>
              forall u, w | (u, w) in edges :: edges[(u, w)] == 0 || edges[(u, w)] == 1 || edges[(u, w)] == 2
  {
    NodeOf(nodes, edges, v, cfgs, style, level, c);
    if v.Proper() {
      NodeMeaning(nodes, edges, v, cfgs, style, level, c);
      assert v.At(level, c).value <= 2;
      forall u, w | (u, w) in edges ensures edges[(u, w)] <= 2 {
        EdgeShape(nodes, edges, v, cfgs, style, u, w);
      }
    }
  }

  /** Every node but ROOT is that of a listed configuration. */
  lemma EveryNodeNamed(nodes: map<string, Attrs>, edges: Edges, v: Verdicts, cfgs: seq<string>, style: Style, n: string)
    requires IsTreeOf(nodes, edges, v, cfgs, style)
    ensures ROOT in nodes && nodes[ROOT] == Attrs(0, "", 1.0, None)
    ensures n in nodes && n != ROOT ==> exists level: nat, c :: level < 3 && c in cfgs && n == NodeName(level, c)
  {
    var all := Listed(cfgs);
    assert NodeIn(nodes, ROOT) == ExpectedNode(ROOT, v, Done(all, all, all), style);
    if n in nodes && n != ROOT { NodeKind(nodes, edges, v, cfgs, style, n); }
  }
}
