/** Merging the times of several folders into one series (hist_macro.py, the loop of `main`). */
module Blend {
  import opened Strings
  import opened Arithmetic

  // ---- the running blend

  /** What a slot holds after the times `xs` have been folded into it, in order. */
  function Blended(xs: seq<real>): real
    requires xs != []
  {
    if |xs| == 1 then xs[0] else (Blended(xs[..|xs| - 1]) + xs[|xs| - 1]) / 2.0
  }

  function Half(n: nat): (r: real)
    ensures r > 0.0
  {
    if n == 0 then 1.0 else Half(n - 1) / 2.0
  }

  /** x1 / 2^(k-1) plus the sum of xi / 2^(k-i+1) over the later times. */
  function WeightedSum(xs: seq<real>, n: nat): real
    requires xs != [] && 1 <= n <= |xs|
  {
    if n == 1 then xs[0] * Half(|xs| - 1) else WeightedSum(xs, n - 1) + xs[n - 1] * Half(|xs| - n + 1)
  }

  lemma {:induction false} WeightedSumStep(xs: seq<real>, x: real, n: nat)
    requires xs != [] && 1 <= n <= |xs|
    ensures WeightedSum(xs + [x], n) == WeightedSum(xs, n) / 2.0
  {
    var ys := xs + [x];
    if n == 1 {
      assert Half(|xs|) == Half(|xs| - 1) / 2.0;
      HalfProduct(xs[0], Half(|xs| - 1), Half(|xs|));
    } else {
      WeightedSumStep(xs, x, n - 1);
      HalfProduct(xs[n - 1], Half(|xs| - n + 1), Half(|ys| - n + 1));
    }
  }

  lemma HalfProduct(x: real, h: real, h': real)
    requires h' == h / 2.0
    ensures x * h' == x * h / 2.0
  {
  }

  /** The closed form: the first time keeps weight 1/2^(k-1), the i-th 1/2^(k-i+1). */
  lemma {:induction false} BlendClosedForm(xs: seq<real>)
    requires xs != []
    ensures Blended(xs) == WeightedSum(xs, |xs|)
  {
    var n := |xs|;
    if n > 1 {
      var init, x := xs[..n - 1], xs[n - 1];
      assert xs == init + [x];
      BlendClosedForm(init);
      WeightedSumStep(init, x, n - 1);
      assert Half(1) == 0.5;
    }
  }

  /** The blend never leaves the range of its inputs. */
  lemma {:induction false} BlendBounds(xs: seq<real>, lo: real, hi: real)
    requires xs != [] && forall i | 0 <= i < |xs| :: lo <= xs[i] <= hi
    ensures lo <= Blended(xs) <= hi
  {
    if |xs| > 1 { BlendBounds(xs[..|xs| - 1], lo, hi); }
  }

  function Total(xs: seq<real>): real {
    if xs == [] then 0.0 else Total(xs[..|xs| - 1]) + xs[|xs| - 1]
  }

  function Mean(xs: seq<real>): real
    requires xs != []
  {
    Total(xs) / |xs| as real
  }

  function Zeros(n: nat): (r: seq<real>)
    ensures |r| == n && forall i | 0 <= i < n :: r[i] == 0.0
  {
    seq(n, _ => 0.0)
  }

  lemma {:induction false} ZerosTotal(n: nat)
    ensures Total(Zeros(n)) == 0.0
    ensures n > 0 ==> Blended(Zeros(n)) == 0.0
  {
    if n > 0 {
      assert Zeros(n)[..n - 1] == Zeros(n - 1);
      ZerosTotal(n - 1);
    }
  }

  /** The blend is the arithmetic mean of every list of `k` times exactly when there are at most two. */
  lemma BlendIsMeanIff(k: nat)
    requires k >= 1
    ensures (forall xs: seq<real> | |xs| == k :: Blended(xs) == Mean(xs)) <==> k <= 2
  {
    if k <= 2 {
      forall xs: seq<real> | |xs| == k ensures Blended(xs) == Mean(xs) {
        if k == 1 { OneTime(xs); } else { TwoTimes(xs); }
      }
    } else {
      var xs := Zeros(k - 1) + [1.0];
      LastOfMany(k);
      assert |xs| == k && Blended(xs) != Mean(xs);
    }
  }

  lemma OneTime(xs: seq<real>)
    requires |xs| == 1
    ensures Blended(xs) == Mean(xs)
  {
    assert Total(xs[..0]) == 0.0;
  }

  lemma TwoTimes(xs: seq<real>)
    requires |xs| == 2
    ensures Blended(xs) == Mean(xs)
  {
    assert xs[..1] == [xs[0]];
    assert Total([xs[0]]) == xs[0] by { assert [xs[0]][..0] == []; }
  }

  /** With `k` > 2 times the last one counts half instead of a k-th. */
  lemma LastOfMany(k: nat)
    requires k > 2
    ensures var xs := Zeros(k - 1) + [1.0]; Blended(xs) == 0.5 && Mean(xs) < 0.5
  {
    var xs := Zeros(k - 1) + [1.0];
    assert xs[..k - 1] == Zeros(k - 1);
    ZerosTotal(k - 1);
    var q := Quotient(1.0, k as real);
    CancelBelow(q, 0.5, k as real);
  }

  // ---- the nested dictionary

  /** The place of one number: snoop direction, coherency, series label, benchmark. */
  datatype Slot = Slot(snoop: nat, coherency: nat, series: string, bench: string)

  /** What one folder contributes. */
  datatype Folder = Folder(testType: string, snoop: nat, channels: nat, coherency: nat, times: map<string, real>)

  function SeriesLabel(testType: string, channels: nat): string {
    if testType == "SOLO" then "SOLO"
    else if testType == "DMA" then "DMA-" + Decimal(channels) + "ch"
    else if testType == "DMA_FPGA" then "DMA+FPGA-" + Decimal(channels) + "ch"
    else "?"
  }

  predicate KnownType(testType: string) {
    testType == "SOLO" || testType == "DMA" || testType == "DMA_FPGA"
  }

  /** The three shapes of a label; and two folders of known test types share a series exactly when they have
      the same test type and, unless it is SOLO, the same number of channels. */
  lemma SameSeriesIff(t: string, ch: nat, t': string, ch': nat)
    requires KnownType(t) && KnownType(t')
    ensures SeriesLabel("SOLO", ch) == "SOLO"
    ensures SeriesLabel("DMA", ch) == "DMA-" + Decimal(ch) + "ch"
    ensures SeriesLabel("DMA_FPGA", ch) == "DMA+FPGA-" + Decimal(ch) + "ch"
    ensures SeriesLabel(t, ch) == SeriesLabel(t', ch') <==> t == t' && (t == "SOLO" || ch == ch')
  {
    LabelLetters(ch);
    LabelLetters(ch');
    if t == t' != "SOLO" && SeriesLabel(t, ch) == SeriesLabel(t', ch') {
      SameMiddle(if t == "DMA" then "DMA-" else "DMA+FPGA-", Decimal(ch), Decimal(ch'), "ch");
      DecimalRoundTrip(ch);
      DecimalRoundTrip(ch');
    }
  }

  lemma LabelLetters(ch: nat)
    ensures SeriesLabel("SOLO", ch)[0] == 'S'
    ensures SeriesLabel("DMA", ch)[0] == 'D' && SeriesLabel("DMA", ch)[3] == '-'
    ensures SeriesLabel("DMA_FPGA", ch)[0] == 'D' && SeriesLabel("DMA_FPGA", ch)[3] == '+'
  {
  }

  lemma SameMiddle(a: string, x: string, y: string, b: string)
    requires a + x + b == a + y + b
    ensures x == y
  {
    var s, t := a + x + b, a + y + b;
    assert s[|a|..|s| - |b|] == x && t[|a|..|t| - |b|] == y;
  }

  /** Only read and write snoops, coherent or not, have a place in the plots. */
  predicate Plotted(f: Folder) {
    (f.snoop == 1 || f.snoop == 2) && f.coherency <= 1
  }

  /** The time a folder has for a slot, as a list of at most one. */
  function Contribution(f: Folder, s: Slot): seq<real> {
    if Plotted(f) && f.snoop == s.snoop && f.coherency == s.coherency
       && SeriesLabel(f.testType, f.channels) == s.series && s.bench in f.times
    then [f.times[s.bench]] else []
  }

  /** Which slots a folder has a time for: none outside the plotted snoops and coherencies; otherwise, for
      each of its benchmarks, the one slot of its own snoop, coherency and series. */
  lemma FolderSlots(f: Folder, s: Slot)
    requires KnownType(f.testType)
    ensures f.snoop !in {1, 2} || f.coherency !in {0, 1} ==> Contribution(f, s) == []
    ensures f.snoop in {1, 2} && f.coherency in {0, 1} ==>
              Contribution(f, s) ==
                if s.bench in f.times
                   && s == Slot(f.snoop, f.coherency, SeriesLabel(f.testType, f.channels), s.bench)
                then [f.times[s.bench]] else []
  {
  }

  /** All the times for a slot, in folder order. */
  function Contributions(fs: seq<Folder>, s: Slot): seq<real> {
    if fs == [] then [] else Contributions(fs[..|fs| - 1], s) + Contribution(fs[|fs| - 1], s)
  }

  class MacroData {
    /** The nested dictionaries, keyed by their path. */
    var data: map<Slot, real>

    constructor ()
      ensures data == map[]
    {
      data := map[];
    }

    /** Every slot holds the blend of the times contributed to it so far. */
    ghost predicate Holds(fs: seq<Folder>)
      reads this
    {
      && (forall s :: s in data <==> Contributions(fs, s) != [])
      && (forall s | s in data :: data[s] == Blended(Contributions(fs, s)))
    }

    method AddFolder(f: Folder, ghost before: seq<Folder>)
      requires Holds(before)
      modifies this
      ensures Holds(before + [f])
    {
      assert (before + [f])[..|before|] == before;
      if !((f.snoop == 1 || f.snoop == 2) && f.coherency <= 1) {
        forall s ensures Contributions(before + [f], s) == Contributions(before, s) {
          assert Contributions(before, s) + [] == Contributions(before, s);
        }
        return;
      }
      ghost var start := data;
      AddTimes(f);
      forall s
        ensures s in data <==> Contributions(before + [f], s) != []
        ensures s in data ==> data[s] == Blended(Contributions(before + [f], s))
      {
        AddOne(before, f, s);
        assert s in data <==> s in start || Added(f, {}, s);
      }
    }

    /** The loop over the benchmarks of one folder. */
    method AddTimes(f: Folder)
      requires Plotted(f)
      modifies this
      ensures forall s :: s in data <==> s in old(data) || Added(f, {}, s)
      ensures forall s | s in data :: data[s] ==
                if !Added(f, {}, s) then old(data)[s]
                else if s in old(data) then (old(data)[s] + f.times[s.bench]) / 2.0
                else f.times[s.bench]
    {
      var series := SeriesLabel(f.testType, f.channels);
      var rest := f.times.Keys;
      ghost var start := data;
      while rest != {}
        invariant rest <= f.times.Keys
        invariant forall s :: s in data <==> s in start || Added(f, rest, s)
        invariant forall s | s in data :: data[s] ==
                    if !Added(f, rest, s) then start[s]
                    else if s in start then (start[s] + f.times[s.bench]) / 2.0
                    else f.times[s.bench]
        decreases |rest|
      {
        var bench :| bench in rest;
        rest := rest - {bench};
        var s := Slot(f.snoop, f.coherency, series, bench);
        if s in data {
          data := data[s := (data[s] + f.times[bench]) / 2.0];
        } else {
          data := data[s := f.times[bench]];
        }
      }
    }

    /** All folders, in order. */
    method Collect(fs: seq<Folder>)
      requires data == map[]
      modifies this
      ensures Holds(fs)
    {
      for n := 0 to |fs|
        invariant Holds(fs[..n])
      {
        AddFolder(fs[n], fs[..n]);
        assert fs[..n + 1] == fs[..n] + [fs[n]];
      }
      assert fs[..|fs|] == fs;
    }
  }

  /** The folder's time for this slot has been folded in (its benchmark is not among those left). */
  predicate Added(f: Folder, rest: set<string>, s: Slot) {
    Contribution(f, s) != [] && s.bench !in rest
  }

  lemma AddOne(before: seq<Folder>, f: Folder, s: Slot)
    ensures Contributions(before + [f], s) == Contributions(before, s) + Contribution(f, s)
    ensures Contribution(f, s) == [] ==> Contributions(before + [f], s) == Contributions(before, s)
    ensures Contribution(f, s) != [] ==>
              var all := Contributions(before + [f], s);
              all != [] && Blended(all) == if Contributions(before, s) == [] then f.times[s.bench]
                                           else (Blended(Contributions(before, s)) + f.times[s.bench]) / 2.0
  {
    assert (before + [f])[..|before|] == before;
    var xs := Contributions(before, s);
    if Contribution(f, s) != [] {
      assert (xs + Contribution(f, s))[..|xs|] == xs;
    } else {
      assert xs + [] == xs;
    }
  }
}
