/** The grouped heatmap (DAAT-MCS_tuner.py, `plot_delta_grouped_heatmap`): the acceptability mask, the
    column arithmetic of the four groups, and the opacity and text of every cell. */
module Heatmap {
  import opened Wrappers
  import opened Metrics
  import opened Matrices

  type DeltaMatrix = array2<Option<real>>

  datatype Mark = ClassText(cls: nat) | Tick | Cross

  const TRANSPARENT := 0.0
  const FADED_CLASS := 0.25
  const FADED_INTERSECTION := 0.20
  const SOLID := 1.0

  // ---- one cell

  predicate Within(d: Option<real>, tau: real, factor: real) {
    d.Some? && d.value <= factor * tau
  }

  /** The mask at one (configuration, benchmark): every delta finite and inside its widened tolerance. */
  predicate Accepts(d0: Option<real>, d1: Option<real>, d2: Option<real>, tol: Tolerances) {
    Within(d0, tol.tau0, tol.factor) && Within(d1, tol.tau1, tol.factor) && Within(d2, tol.tau2, tol.factor)
  }

  function Larger(a: real, b: real): real { if a >= b then a else b }

  /** `np.maximum` lets a NaN through. */
  function Worst(d0: Option<real>, d1: Option<real>, d2: Option<real>): Option<real> {
    if d0.Some? && d1.Some? && d2.Some? then Some(Larger(Larger(d0.value, d1.value), d2.value)) else None
  }

  /** Which of the four groups column `x` belongs to, and which configuration it shows there. */
  function Group(x: nat, n: nat): (g: nat)
    requires x < 4 * n
    ensures g < 4 && g * n <= x < (g + 1) * n
  {
    x / n
  }

  function Column(x: nat, n: nat): (c: nat)
    requires x < 4 * n
    ensures c < n && x == Group(x, n) * n + c
  {
    x % n
  }

  function Shown(g: nat, d0: Option<real>, d1: Option<real>, d2: Option<real>): Option<real> {
    if g == 0 then d0 else if g == 1 then d1 else if g == 2 then d2 else Worst(d0, d1, d2)
  }

  function GroupCpu(g: nat): (cpu: Cpu)
    requires g < 3
    ensures cpu == CPU_SEQUENCE[g]
  {
    if g == 0 then CPU0 else if g == 1 then CPU1 else CPU2
  }

  function Opacity(g: nat, d: Option<real>, ok: bool, tol: Tolerances): real
    requires g < 4
  {
    if d.None? then TRANSPARENT
    else if g < 3 then
      if ClassOf(d.value, tol.Tau(GroupCpu(g)), tol.factor) == 2 then FADED_CLASS else SOLID
    else if ok then SOLID else FADED_INTERSECTION
  }

  function Text(g: nat, d: Option<real>, ok: bool, tol: Tolerances): Option<Mark>
    requires g < 4
  {
    if d.None? then None
    else if g < 3 then Some(ClassText(ClassOf(d.value, tol.Tau(GroupCpu(g)), tol.factor)))
    else Some(if ok then Tick else Cross)
  }

  // ---- whole matrices

  predicate SameShape(d0: DeltaMatrix, d1: DeltaMatrix, d2: DeltaMatrix) {
    d0.Length0 == d1.Length0 == d2.Length0 && d0.Length1 == d1.Length1 == d2.Length1
  }

  /** Rows of the plot are benchmarks: the matrices are transposed. */
  method Mask(d0: DeltaMatrix, d1: DeltaMatrix, d2: DeltaMatrix, tol: Tolerances) returns (ok: array2<bool>)
    requires SameShape(d0, d1, d2)
    ensures ok.Length0 == d0.Length1 && ok.Length1 == d0.Length0
    ensures forall y, c | 0 <= y < ok.Length0 && 0 <= c < ok.Length1 ::
              ok[y, c] <==> Accepts(d0[c, y], d1[c, y], d2[c, y], tol)
  {
    var ft0, ft1, ft2 := tol.factor * tol.tau0, tol.factor * tol.tau1, tol.factor * tol.tau2;
    ok := new bool[d0.Length1, d0.Length0];
    for y := 0 to ok.Length0
      invariant forall y', c | 0 <= y' < y && 0 <= c < ok.Length1 ::
                  ok[y', c] <==> Accepts(d0[c, y'], d1[c, y'], d2[c, y'], tol)
    {
      for c := 0 to ok.Length1
        invariant forall y', c' | 0 <= y' < y && 0 <= c' < ok.Length1 ::
                    ok[y', c'] <==> Accepts(d0[c', y'], d1[c', y'], d2[c', y'], tol)
        invariant forall c' | 0 <= c' < c :: ok[y, c'] <==> Accepts(d0[c', y], d1[c', y], d2[c', y], tol)
      {
        ok[y, c] := && d0[c, y].Some? && d1[c, y].Some? && d2[c, y].Some?
                    && d0[c, y].value <= ft0 && d1[c, y].value <= ft1 && d2[c, y].value <= ft2;
      }
    }
  }

  /** The three transposed matrices and their maximum, side by side. */
  method Concatenate(d0: DeltaMatrix, d1: DeltaMatrix, d2: DeltaMatrix) returns (all: DeltaMatrix)
    requires SameShape(d0, d1, d2)
    ensures all.Length0 == d0.Length1 && all.Length1 == 4 * d0.Length0
    ensures forall y, x | 0 <= y < all.Length0 && 0 <= x < all.Length1 ::
              var c := Column(x, d0.Length0);
              all[y, x] == Shown(Group(x, d0.Length0), d0[c, y], d1[c, y], d2[c, y])
  {
    var n := d0.Length0;
    all := new Option<real>[d0.Length1, 4 * n]((_, _) => None);
    for y := 0 to all.Length0
      invariant forall y', x | 0 <= y' < y && 0 <= x < 4 * n ::
                  all[y', x] == Shown(Group(x, n), d0[Column(x, n), y'], d1[Column(x, n), y'], d2[Column(x, n), y'])
    {
      for x := 0 to 4 * n
        invariant forall y', x' | 0 <= y' < y && 0 <= x' < 4 * n ::
                    all[y', x'] == Shown(Group(x', n), d0[Column(x', n), y'], d1[Column(x', n), y'],
                                         d2[Column(x', n), y'])
        invariant forall x' | 0 <= x' < x ::
                    all[y, x'] == Shown(Group(x', n), d0[Column(x', n), y], d1[Column(x', n), y], d2[Column(x', n), y])
      {
        var c := Column(x, n);
        all[y, x] :=
          if x < n then d0[c, y]
          else if x < 2 * n then d1[c, y]
          else if x < 3 * n then d2[c, y]
          else Worst(d0[c, y], d1[c, y], d2[c, y]);
      }
    }
  }

  /** The opacity loop. */
  method Opacities(all: DeltaMatrix, ok: array2<bool>, n: nat, tol: Tolerances) returns (alpha: array2<real>)
    requires all.Length0 == ok.Length0 && all.Length1 == 4 * n && ok.Length1 == n
    ensures alpha.Length0 == all.Length0 && alpha.Length1 == all.Length1
    ensures forall y, x | 0 <= y < all.Length0 && 0 <= x < all.Length1 ::
              alpha[y, x] == Opacity(Group(x, n), all[y, x], ok[y, Column(x, n)], tol)
  {
    alpha := new real[all.Length0, all.Length1]((_, _) => SOLID);
    for y := 0 to all.Length0
      invariant forall y', x | 0 <= y' < y && 0 <= x < all.Length1 ::
                  alpha[y', x] == Opacity(Group(x, n), all[y', x], ok[y', Column(x, n)], tol)
      invariant forall y', x | y <= y' < all.Length0 && 0 <= x < all.Length1 :: alpha[y', x] == SOLID
    {
      for x := 0 to all.Length1
        invariant forall y', x' | 0 <= y' < y && 0 <= x' < all.Length1 ::
                    alpha[y', x'] == Opacity(Group(x', n), all[y', x'], ok[y', Column(x', n)], tol)
        invariant forall y', x' | y < y' < all.Length0 && 0 <= x' < all.Length1 :: alpha[y', x'] == SOLID
        invariant forall x' | x <= x' < all.Length1 :: alpha[y, x'] == SOLID
        invariant forall x' | 0 <= x' < x ::
                  alpha[y, x'] == Opacity(Group(x', n), all[y, x'], ok[y, Column(x', n)], tol)
      {
        var d := all[y, x];
        var group, cfg := Group(x, n), Column(x, n);
        if d.None? {
          alpha[y, x] := TRANSPARENT;
        } else if group < 3 {
          var t := tol.Tau(GroupCpu(group));
          var t2 := tol.factor * t;
          var cls := if d.value <= t then 0 else if d.value <= t2 then 1 else 2;
          if cls == 2 {
            alpha[y, x] := FADED_CLASS;
          }
        } else if !ok[y, cfg] {
          alpha[y, x] := FADED_INTERSECTION;
        }
      }
    }
  }

  /** The text loop. */
  method Texts(all: DeltaMatrix, ok: array2<bool>, n: nat, tol: Tolerances) returns (text: array2<Option<Mark>>)
    requires all.Length0 == ok.Length0 && all.Length1 == 4 * n && ok.Length1 == n
    ensures text.Length0 == all.Length0 && text.Length1 == all.Length1
    ensures forall y, x | 0 <= y < all.Length0 && 0 <= x < all.Length1 ::
              text[y, x] == Text(Group(x, n), all[y, x], ok[y, Column(x, n)], tol)
  {
    text := new Option<Mark>[all.Length0, all.Length1]((_, _) => None);
    for y := 0 to all.Length0
      invariant forall y', x | 0 <= y' < y && 0 <= x < all.Length1 ::
                  text[y', x] == Text(Group(x, n), all[y', x], ok[y', Column(x, n)], tol)
      invariant forall y', x | y <= y' < all.Length0 && 0 <= x < all.Length1 :: text[y', x] == None
    {
      for x := 0 to all.Length1
        invariant forall y', x' | 0 <= y' < y && 0 <= x' < all.Length1 ::
                    text[y', x'] == Text(Group(x', n), all[y', x'], ok[y', Column(x', n)], tol)
        invariant forall y', x' | y < y' < all.Length0 && 0 <= x' < all.Length1 :: text[y', x'] == None
        invariant forall x' | x <= x' < all.Length1 :: text[y, x'] == None
        invariant forall x' | 0 <= x' < x :: text[y, x'] == Text(Group(x', n), all[y, x'], ok[y, Column(x', n)], tol)
      {
        var d := all[y, x];
        if d.None? {
          continue;
        }
        var group, cfg := Group(x, n), Column(x, n);
        if group < 3 {
          var t := tol.Tau(GroupCpu(group));
          var t2 := tol.factor * t;
          text[y, x] := Some(ClassText(if d.value <= t then 0 else if d.value <= t2 then 1 else 2));
        } else {
          text[y, x] := Some(if ok[y, cfg] then Tick else Cross);
        }
      }
    }
  }

  /** The fourth group shows the largest of three deltas, and nothing when one is missing. */
  lemma WorstMeaning(d0: Option<real>, d1: Option<real>, d2: Option<real>)
    ensures Worst(d0, d1, d2).Some? <==> d0.Some? && d1.Some? && d2.Some?
    ensures Worst(d0, d1, d2).Some? ==>
              && Worst(d0, d1, d2) in [d0, d1, d2]
              && Worst(d0, d1, d2).value >= d0.value && Worst(d0, d1, d2).value >= d1.value
              && Worst(d0, d1, d2).value >= d2.value
  {
    var s := [d0, d1, d2];
    assert s[0] == d0 && s[1] == d1 && s[2] == d2;
  }

  /** What a reader of the figure may conclude from one cell.  In a CPU group the digit is the class
      matrix entry: 0 for a delta within the tolerance, 1 up to the widened one, 2 beyond, blank and
      transparent on NaN; 2 is faded and the others are solid.  In the intersection group the cell is blank
      and transparent exactly when one of the three deltas is NaN, ticked and solid exactly where the mask,
      whose 1s the overlay paints green, is 1, and otherwise crossed and faded. */
  ghost predicate CellReads(data: Dataset, k: Key, cfg: string, tol: Tolerances, g: nat,
                            text: Option<Mark>, alpha: real, green: bool)
    requires g < 4
  {
    if g < 3 then
      var cls := ClassCell(data, k, GroupCpu(g), cfg, tol);
      var tau := tol.Tau(GroupCpu(g));
      && text == (if cls.Some? then Some(ClassText(cls.value)) else None)
      && ClassReads(DeltaCell(data, k, GroupCpu(g), cfg), tau, tol.factor * tau, text, alpha)
    else
      VerdictReads(DeltaCell(data, k, CPU0, cfg), DeltaCell(data, k, CPU1, cfg), DeltaCell(data, k, CPU2, cfg),
                   tol, text, alpha, green)
  }

  predicate ClassReads(d: Option<real>, tau: real, wide: real, text: Option<Mark>, alpha: real) {
    && (text == None <==> d.None?)
    && (text == Some(ClassText(0)) <==> d.Some? && d.value <= tau)
    && (text == Some(ClassText(1)) <==> d.Some? && tau < d.value <= wide)
    && (text == Some(ClassText(2)) <==> d.Some? && d.value > tau && d.value > wide)
    && (alpha == TRANSPARENT <==> d.None?)
    && (alpha == FADED_CLASS <==> text == Some(ClassText(2)))
    && (alpha == SOLID <==> text == Some(ClassText(0)) || text == Some(ClassText(1)))
  }

  predicate VerdictReads(d0: Option<real>, d1: Option<real>, d2: Option<real>, tol: Tolerances,
                         text: Option<Mark>, alpha: real, green: bool)
  {
    && (text == None <==> d0.None? || d1.None? || d2.None?)
    && (text == Some(Tick) <==> green)
    && (text == Some(Cross) <==> text != None && !green)
    && (alpha == TRANSPARENT <==> text == None)
    && (alpha == SOLID <==> green)
    && (alpha == FADED_INTERSECTION <==> text == Some(Cross))
    && (green <==> Accepts(d0, d1, d2, tol))
  }

  lemma ClassIsRead(g: nat, d: Option<real>, ok: bool, tol: Tolerances)
    requires g < 3
    ensures var tau := tol.Tau(GroupCpu(g));
            ClassReads(d, tau, tol.factor * tau, Text(g, d, ok, tol), Opacity(g, d, ok, tol))
  {
  }

  lemma VerdictIsRead(d0: Option<real>, d1: Option<real>, d2: Option<real>, tol: Tolerances)
    ensures var d, ok := Worst(d0, d1, d2), Accepts(d0, d1, d2, tol);
            VerdictReads(d0, d1, d2, tol, Text(3, d, ok, tol), Opacity(3, d, ok, tol), ok)
  {
  }

  lemma CellIsFaithful(data: Dataset, k: Key, cfg: string, tol: Tolerances, g: nat)
    requires g < 4
    ensures var d0, d1 := DeltaCell(data, k, CPU0, cfg), DeltaCell(data, k, CPU1, cfg);
            var d2 := DeltaCell(data, k, CPU2, cfg);
            var d, ok := Shown(g, d0, d1, d2), Accepts(d0, d1, d2, tol);
            CellReads(data, k, cfg, tol, g, Text(g, d, ok, tol), Opacity(g, d, ok, tol), ok)
  {
    var d0, d1, d2 := DeltaCell(data, k, CPU0, cfg), DeltaCell(data, k, CPU1, cfg), DeltaCell(data, k, CPU2, cfg);
    if g < 3 {
      assert Shown(g, d0, d1, d2) == DeltaCell(data, k, GroupCpu(g), cfg);
      ClassIsRead(g, Shown(g, d0, d1, d2), Accepts(d0, d1, d2, tol), tol);
    } else {
      VerdictIsRead(d0, d1, d2, tol);
    }
  }

  /** The whole figure: column `x` stands for configuration `x % n` of group `x / n`. */
  method Plot(ghost data: Dataset, ghost b0: string, ghost s: Scope, d0: DeltaMatrix, d1: DeltaMatrix,
              d2: DeltaMatrix, tol: Tolerances)
    returns (green: array2<bool>, alpha: array2<real>, text: array2<Option<Mark>>)
    requires IsDeltaMatrix(d0, data, b0, s, CPU0) && IsDeltaMatrix(d1, data, b0, s, CPU1)
    requires IsDeltaMatrix(d2, data, b0, s, CPU2)
    ensures green.Length0 == alpha.Length0 == text.Length0 == |s.benches|
    ensures green.Length1 == |s.cfgs| && alpha.Length1 == text.Length1 == 4 * |s.cfgs|
    ensures forall y, x | 0 <= y < |s.benches| && 0 <= x < 4 * |s.cfgs| ::
              var c := Column(x, |s.cfgs|);
              CellReads(data, Key(b0, s.cpu1, s.benches[y]), s.cfgs[c], tol, Group(x, |s.cfgs|), text[y, x],
                        alpha[y, x], green[y, c])
  {
    green := Mask(d0, d1, d2, tol);
    var all := Concatenate(d0, d1, d2);
    alpha := Opacities(all, green, d0.Length0, tol);
    text := Texts(all, green, d0.Length0, tol);
    forall y, x | 0 <= y < |s.benches| && 0 <= x < 4 * |s.cfgs|
      ensures CellReads(data, Key(b0, s.cpu1, s.benches[y]), s.cfgs[Column(x, |s.cfgs|)], tol, Group(x, |s.cfgs|),
                        text[y, x], alpha[y, x], green[y, Column(x, |s.cfgs|)])
    {
      CellIsFaithful(data, Key(b0, s.cpu1, s.benches[y]), s.cfgs[Column(x, |s.cfgs|)], tol, Group(x, |s.cfgs|));
    }
  }
}
