/** Enumerating the CCI experiments and emitting their guest configurations (baremetal.py, class
    `baremetal_cci_guests`). */
module CciGuests {
  import opened Bits
  import opened Lists
  import opened CciNames
  import opened Strings

  datatype IlaConfig = IlaConfig(testType: string, snoop: nat, channels: nat, coherency: nat, cpuIds: seq<nat>)

  /** The numbers substituted into the template; the template text itself is not modelled. */
  datatype GuestConfig = GuestConfig(image: string, affinity: nat, cpuNum: nat)

  function Name(c: IlaConfig): string {
    ConfigName(c.testType, c.snoop, c.channels, c.coherency, |c.cpuIds|)
  }

  // ---- enumeration, as nested loops over lists

  function FlatMap<A, B>(xs: seq<A>, f: A -> seq<B>): seq<B> {
    if xs == [] then [] else FlatMap(xs[..|xs| - 1], f) + f(xs[|xs| - 1])
  }

  datatype Ids = Ids(solo: seq<nat>, dma: seq<nat>)

  function ForChannel(ids: Ids, tt: string, snoop: nat, coh: nat): nat -> seq<IlaConfig> {
    (ch: nat) => [IlaConfig(tt, snoop, ch, coh, ids.dma)]
  }

  function ForCoherency(ids: Ids, channels: seq<nat>, tt: string, snoop: nat): nat -> seq<IlaConfig> {
    (coh: nat) => if tt == SOLO then [IlaConfig(tt, snoop, 0, coh, ids.solo)]
           else FlatMap(channels, ForChannel(ids, tt, snoop, coh))
  }

  function ForSnoop(ids: Ids, channels: seq<nat>, cohs: seq<nat>, tt: string): nat -> seq<IlaConfig> {
    (snoop: nat) => FlatMap(cohs, ForCoherency(ids, channels, tt, snoop))
  }

  function ForTest(ids: Ids, channels: seq<nat>, cohs: seq<nat>, snoops: seq<nat>): string -> seq<IlaConfig> {
    tt => FlatMap(snoops, ForSnoop(ids, channels, cohs, tt))
  }

  /** Everything one call appends. */
  function Enumerated(ids: Ids, tests: seq<string>, snoops: seq<nat>, cohs: seq<nat>, channels: seq<nat>)
    : seq<IlaConfig>
  {
    FlatMap(tests, ForTest(ids, channels, cohs, snoops))
  }

  lemma EnumeratedStep(ids: Ids, tests: seq<string>, t: nat, snoops: seq<nat>, cohs: seq<nat>, channels: seq<nat>)
    requires t < |tests|
    ensures Enumerated(ids, tests[..t + 1], snoops, cohs, channels) ==
            Enumerated(ids, tests[..t], snoops, cohs, channels) + ForTest(ids, channels, cohs, snoops)(tests[t])
  {
    FlatMapStep(tests, t, ForTest(ids, channels, cohs, snoops));
  }

  // ---- masks

  /** The affinity mask of a list of CPU ids. */
  function Mask(ids: seq<nat>): nat {
    if ids == [] then 0 else Or(Mask(ids[..|ids| - 1]), Pow2(ids[|ids| - 1]))
  }

  method AffinityMask(ids: seq<nat>) returns (affinity: nat)
    ensures affinity == Mask(ids)
  {
    affinity := 0;
    for n := 0 to |ids|
      invariant affinity == Mask(ids[..n])
    {
      affinity := Or(affinity, Pow2(ids[n]));
      assert ids[..n + 1][..n] == ids[..n];
    }
    assert ids[..|ids|] == ids;
  }

  /** A CPU's bit is set exactly when the CPU is listed. */
  lemma {:induction false} MaskBits(ids: seq<nat>, c: nat)
    ensures Bit(Mask(ids), c) <==> c in ids
  {
    if ids == [] {
      ZeroBits(c);
    } else {
      var n := |ids| - 1;
      MaskBits(ids[..n], c);
      OrBits(Mask(ids[..n]), Pow2(ids[n]), c);
      Pow2Bits(ids[n], c);
      assert ids == ids[..n] + [ids[n]];
    }
  }

  /** Order and repetition of the ids do not matter. */
  lemma MaskOfSet(ids: seq<nat>, ids': seq<nat>)
    requires forall c: nat :: c in ids <==> c in ids'
    ensures Mask(ids) == Mask(ids')
  {
    forall c: nat ensures Bit(Mask(ids), c) <==> Bit(Mask(ids'), c) {
      MaskBits(ids, c);
      MaskBits(ids', c);
    }
    SameBitsSameNumber(Mask(ids), Mask(ids'));
  }

  function Members(ids: seq<nat>): set<nat> {
    set c | c in ids
  }

  lemma MembersSnoc(init: seq<nat>, c: nat)
    ensures Members(init + [c]) == Members(init) + {c}
    ensures c in init <==> c in Members(init)
  {
  }

  lemma {:induction false} MaskPopcount(ids: seq<nat>)
    ensures Popcount(Mask(ids)) == |Members(ids)|
  {
    if ids == [] {
      assert Members(ids) == {};
    } else {
      var init, c := ids[..|ids| - 1], ids[|ids| - 1];
      assert ids == init + [c];
      MaskPopcount(init);
      MaskBits(init, c);
      SetBit(Mask(init), c);
      MembersSnoc(init, c);
      assert c in init ==> Members(init) + {c} == Members(init);
    }
  }

  lemma {:induction false} MembersCount(ids: seq<nat>)
    ensures |Members(ids)| <= |ids|
    ensures |Members(ids)| == |ids| <==> Distinct(ids)
  {
    if ids == [] {
      assert Members(ids) == {};
    } else {
      var n := |ids| - 1;
      var init, c := ids[..n], ids[n];
      assert ids == init + [c];
      MembersCount(init);
      MembersSnoc(init, c);
      assert c in init ==> Members(init) + {c} == Members(init);
      DistinctSnoc(init, c);
    }
  }

  lemma DistinctSnoc(init: seq<nat>, c: nat)
    ensures Distinct(init + [c]) <==> Distinct(init) && c !in init
  {
    var s := init + [c];
    if Distinct(s) {
      assert forall a, b | 0 <= a < b < |init| :: init[a] == s[a] && init[b] == s[b];
      forall a | 0 <= a < |init| ensures init[a] != c { assert s[a] != s[|init|]; }
    }
  }

  /** The mask emitted beside `cpu_num` has that many bits exactly when no CPU id is repeated. */
  lemma MaskMatchesCpuNum(ids: seq<nat>)
    ensures Popcount(Mask(ids)) == |ids| <==> Distinct(ids)
  {
    MaskPopcount(ids);
    MembersCount(ids);
  }

  // ---- the class

  class CciGuestSet {
    var cpuIds: seq<seq<nat>>
    var tests: seq<string>
    var snoops: seq<nat>
    var cohs: seq<nat>
    var channels: seq<nat>
    var ilaConfigurations: seq<IlaConfig>

    constructor (cpuIds: seq<seq<nat>>, tests: seq<string>, snoops: seq<nat>, cohs: seq<nat>, channels: seq<nat>)
      ensures this.cpuIds == cpuIds && this.tests == tests && this.snoops == snoops
      ensures this.cohs == cohs && this.channels == channels && ilaConfigurations == []
    {
      this.cpuIds, this.tests, this.snoops, this.cohs, this.channels := cpuIds, tests, snoops, cohs, channels;
      ilaConfigurations := [];
    }

    /** Fails (an IndexError) when fewer than two CPU lists are configured. */
    method GetConfigurations() returns (ok: bool)
      modifies this`ilaConfigurations
      ensures ok <==> |cpuIds| >= 2
      ensures !ok ==> ilaConfigurations == old(ilaConfigurations)
      ensures ok ==> ilaConfigurations == old(ilaConfigurations)
                       + Enumerated(Ids(cpuIds[0], cpuIds[1]), tests, snoops, cohs, channels)
    {
      if |cpuIds| < 2 {
        return false;
      }
      AddAll(Ids(cpuIds[0], cpuIds[1]));
      ok := true;
    }

    method AddAll(ids: Ids)
      modifies this`ilaConfigurations
      ensures ilaConfigurations == old(ilaConfigurations) + Enumerated(ids, tests, snoops, cohs, channels)
    {
      var start := ilaConfigurations;
      for t := 0 to |tests|
        invariant ilaConfigurations == start + Enumerated(ids, tests[..t], snoops, cohs, channels)
      {
        AddTest(ids, tests[t]);
        EnumeratedStep(ids, tests, t, snoops, cohs, channels);
      }
      assert tests[..|tests|] == tests;
    }

    method AddTest(ids: Ids, tt: string)
      modifies this`ilaConfigurations
      ensures ilaConfigurations == old(ilaConfigurations) + ForTest(ids, channels, cohs, snoops)(tt)
    {
      var start := ilaConfigurations;
      for s := 0 to |snoops|
        invariant ilaConfigurations == start + FlatMap(snoops[..s], ForSnoop(ids, channels, cohs, tt))
      {
        AddSnoop(ids, tt, snoops[s]);
        FlatMapStep(snoops, s, ForSnoop(ids, channels, cohs, tt));
      }
      assert snoops[..|snoops|] == snoops;
    }

    method AddSnoop(ids: Ids, tt: string, snoop: nat)
      modifies this`ilaConfigurations
      ensures ilaConfigurations == old(ilaConfigurations) + ForSnoop(ids, channels, cohs, tt)(snoop)
    {
      var start := ilaConfigurations;
      for h := 0 to |cohs|
        invariant ilaConfigurations == start + FlatMap(cohs[..h], ForCoherency(ids, channels, tt, snoop))
      {
        AddCoherency(ids, tt, snoop, cohs[h]);
        FlatMapStep(cohs, h, ForCoherency(ids, channels, tt, snoop));
      }
      assert cohs[..|cohs|] == cohs;
    }

    method AddCoherency(ids: Ids, tt: string, snoop: nat, coh: nat)
      modifies this`ilaConfigurations
      ensures ilaConfigurations == old(ilaConfigurations) + ForCoherency(ids, channels, tt, snoop)(coh)
    {
      var cpus := if tt == SOLO then ids.solo else ids.dma;
      if tt == SOLO {
        ilaConfigurations := ilaConfigurations + [IlaConfig(tt, snoop, 0, coh, cpus)];
        return;
      }
      var start := ilaConfigurations;
      for c := 0 to |channels|
        invariant ilaConfigurations == start + FlatMap(channels[..c], ForChannel(ids, tt, snoop, coh))
      {
        ilaConfigurations := ilaConfigurations + [IlaConfig(tt, snoop, channels[c], coh, cpus)];
        FlatMapStep(channels, c, ForChannel(ids, tt, snoop, coh));
      }
      assert channels[..|channels|] == channels;
    }

    /** The dictionary of guest configurations: later entries overwrite earlier ones of the same name. */
    method GenerateGuestConfigFiles() returns (files: map<string, GuestConfig>)
      ensures files == Files(ilaConfigurations)
    {
      files := map[];
      for k := 0 to |ilaConfigurations|
        invariant files == Files(ilaConfigurations[..k])
      {
        var c := ilaConfigurations[k];
        var affinity := AffinityMask(c.cpuIds);
        var name := ConfigName(c.testType, c.snoop, c.channels, c.coherency, |c.cpuIds|);
        files := files[name := GuestConfig(name, affinity, |c.cpuIds|)];
        assert ilaConfigurations[..k + 1][..k] == ilaConfigurations[..k];
      }
      assert ilaConfigurations[..|ilaConfigurations|] == ilaConfigurations;
    }
  }

  lemma FlatMapStep<A, B>(xs: seq<A>, n: nat, f: A -> seq<B>)
    requires n < |xs|
    ensures FlatMap(xs[..n + 1], f) == FlatMap(xs[..n], f) + f(xs[n])
  {
    assert xs[..n + 1][..n] == xs[..n];
  }

  /** What is emitted for one experiment. */
  function Emitted(c: IlaConfig): GuestConfig {
    GuestConfig(Name(c), Mask(c.cpuIds), |c.cpuIds|)
  }

  function Files(cs: seq<IlaConfig>): map<string, GuestConfig> {
    if cs == [] then map[] else Files(cs[..|cs| - 1])[Name(cs[|cs| - 1]) := Emitted(cs[|cs| - 1])]
  }

  lemma {:induction false} FilesKeys(cs: seq<IlaConfig>)
    ensures forall n :: n in Files(cs) <==> exists c :: c in cs && Name(c) == n
  {
    if cs != [] {
      var init, last := cs[..|cs| - 1], cs[|cs| - 1];
      FilesKeys(init);
      assert cs == init + [last];
      forall n ensures n in Files(cs) <==> exists c :: c in cs && Name(c) == n {
        if n in Files(cs) {
          if n in Files(init) {
            var c :| c in init && Name(c) == n;
            assert c in cs;
          } else {
            assert last in cs;
          }
        }
        if c :| c in cs && Name(c) == n {
          assert c in init || c == last;
        }
      }
    }
  }

  // ---- laws of the enumeration

  lemma {:induction false} FlatMapMember<A, B>(xs: seq<A>, f: A -> seq<B>, y: B)
    ensures y in FlatMap(xs, f) <==> exists x :: x in xs && y in f(x)
  {
    if xs != [] {
      var init, last := xs[..|xs| - 1], xs[|xs| - 1];
      FlatMapMember(init, f, y);
      assert xs == init + [last];
      if y in FlatMap(init, f) {
        var x :| x in init && y in f(x);
        assert x in xs;
      }
      if y in f(last) { assert last in xs; }
      if x :| x in xs && y in f(x) {
        assert x in init || x == last;
      }
    }
  }

  lemma {:induction false} FlatMapDistinct<A, B>(xs: seq<A>, f: A -> seq<B>)
    requires Distinct(xs)
    requires forall x | x in xs :: Distinct(f(x))
    requires forall x, x', y | x in xs && x' in xs && y in f(x) && y in f(x') :: x == x'
    ensures Distinct(FlatMap(xs, f))
  {
    if xs != [] {
      var init, last := xs[..|xs| - 1], xs[|xs| - 1];
      assert xs == init + [last];
      assert forall x | x in init :: x in xs;
      FlatMapDistinct(init, f);
      var u, w := FlatMap(init, f), f(last);
      assert last in xs;
      forall y | y in u ensures y !in w {
        FlatMapMember(init, f, y);
        var x :| x in init && y in f(x);
        var i :| 0 <= i < |init| && init[i] == x;
        assert xs[i] != xs[|xs| - 1] && x in xs;
      }
      ConcatDistinct(u, w);
    }
  }

  lemma ConcatDistinct<T>(u: seq<T>, w: seq<T>)
    requires Distinct(u) && Distinct(w) && forall y | y in u :: y !in w
    ensures Distinct(u + w)
  {
    forall a, b | 0 <= a < b < |u + w| ensures (u + w)[a] != (u + w)[b] {
      if a < |u| <= b { assert u[a] in u && w[b - |u|] in w; }
    }
  }

  lemma {:induction false} FlatMapConcat<A, B>(xs: seq<A>, ys: seq<A>, f: A -> seq<B>)
    ensures FlatMap(xs + ys, f) == FlatMap(xs, f) + FlatMap(ys, f)
  {
    if ys == [] {
      assert xs + ys == xs;
    } else {
      var n := |ys| - 1;
      assert (xs + ys)[..|xs + ys| - 1] == xs + ys[..n];
      FlatMapConcat(xs, ys[..n], f);
    }
  }

  lemma FlatMapOne<A, B>(xs: seq<A>, x: A, f: A -> seq<B>)
    requires xs == [x]
    ensures FlatMap(xs, f) == f(x)
  {
    assert xs[..0] == [];
    assert FlatMap([], f) + f(x) == f(x);
  }

  /** The order of the enumeration, repeats included: test types outermost, then snoops, coherencies and
      channels, each list in its order.  A list may be cut anywhere, and its parts enumerated in turn, when
      the lists around it hold one element. */
  lemma EnumerationOrder(ids: Ids, tests: seq<string>, snoops: seq<nat>, cohs: seq<nat>, channels: seq<nat>,
                         tests': seq<string>, snoops': seq<nat>, cohs': seq<nat>, channels': seq<nat>,
                         tt: string, s: nat, h: nat, ch: nat)
    ensures Enumerated(ids, tests + tests', snoops, cohs, channels) ==
            Enumerated(ids, tests, snoops, cohs, channels) + Enumerated(ids, tests', snoops, cohs, channels)
    ensures Enumerated(ids, [tt], snoops + snoops', cohs, channels) ==
            Enumerated(ids, [tt], snoops, cohs, channels) + Enumerated(ids, [tt], snoops', cohs, channels)
    ensures Enumerated(ids, [tt], [s], cohs + cohs', channels) ==
            Enumerated(ids, [tt], [s], cohs, channels) + Enumerated(ids, [tt], [s], cohs', channels)
    ensures tt != SOLO ==> Enumerated(ids, [tt], [s], [h], channels + channels') ==
                           Enumerated(ids, [tt], [s], [h], channels) + Enumerated(ids, [tt], [s], [h], channels')
    ensures tt != SOLO ==> Enumerated(ids, [tt], [s], [h], [ch]) == [IlaConfig(tt, s, ch, h, ids.dma)]
    ensures tt == SOLO ==> Enumerated(ids, [tt], [s], [h], channels) == [IlaConfig(tt, s, 0, h, ids.solo)]
  {
    FlatMapConcat(tests, tests', ForTest(ids, channels, cohs, snoops));
    OneTest(ids, tt, snoops, cohs, channels);
    OneTest(ids, tt, snoops', cohs, channels);
    OneTest(ids, tt, snoops + snoops', cohs, channels);
    FlatMapConcat(snoops, snoops', ForSnoop(ids, channels, cohs, tt));
    OneSnoop(ids, tt, s, cohs, channels);
    OneSnoop(ids, tt, s, cohs', channels);
    OneSnoop(ids, tt, s, cohs + cohs', channels);
    FlatMapConcat(cohs, cohs', ForCoherency(ids, channels, tt, s));
    OneCoherency(ids, tt, s, h, channels);
    if tt != SOLO {
      OneCoherency(ids, tt, s, h, channels');
      OneCoherency(ids, tt, s, h, channels + channels');
      OneCoherency(ids, tt, s, h, [ch]);
      FlatMapConcat(channels, channels', ForChannel(ids, tt, s, h));
      FlatMapOne([ch], ch, ForChannel(ids, tt, s, h));
    }
  }

  lemma OneTest(ids: Ids, tt: string, snoops: seq<nat>, cohs: seq<nat>, channels: seq<nat>)
    ensures Enumerated(ids, [tt], snoops, cohs, channels) == FlatMap(snoops, ForSnoop(ids, channels, cohs, tt))
  {
    FlatMapOne([tt], tt, ForTest(ids, channels, cohs, snoops));
  }

  lemma OneSnoop(ids: Ids, tt: string, s: nat, cohs: seq<nat>, channels: seq<nat>)
    ensures Enumerated(ids, [tt], [s], cohs, channels) == FlatMap(cohs, ForCoherency(ids, channels, tt, s))
  {
    OneTest(ids, tt, [s], cohs, channels);
    FlatMapOne([s], s, ForSnoop(ids, channels, cohs, tt));
  }

  lemma OneCoherency(ids: Ids, tt: string, s: nat, h: nat, channels: seq<nat>)
    ensures Enumerated(ids, [tt], [s], [h], channels) == ForCoherency(ids, channels, tt, s)(h)
  {
    OneSnoop(ids, tt, s, [h], channels);
    FlatMapOne([h], h, ForCoherency(ids, channels, tt, s));
  }

  /** What one call enumerates: exactly the product space, with a single zero-channel run for SOLO. */
  ghost predicate InSpace(c: IlaConfig, ids: Ids, tests: seq<string>, snoops: seq<nat>, cohs: seq<nat>,
                          channels: seq<nat>) {
    && c.testType in tests && c.snoop in snoops && c.coherency in cohs
    && (if c.testType == SOLO then c.channels == 0 && c.cpuIds == ids.solo
        else c.channels in channels && c.cpuIds == ids.dma)
  }

  lemma CoherencyMember(ids: Ids, channels: seq<nat>, tt: string, snoop: nat, coh: nat, c: IlaConfig)
    ensures c in ForCoherency(ids, channels, tt, snoop)(coh) <==>
            InSpace(c, ids, [tt], [snoop], [coh], channels)
  {
    if tt != SOLO {
      var f := ForChannel(ids, tt, snoop, coh);
      FlatMapMember(channels, f, c);
      assert forall ch :: c in f(ch) <==> c == IlaConfig(tt, snoop, ch, coh, ids.dma);
      if c.channels in channels { assert c in f(c.channels) <==> c == IlaConfig(tt, snoop, c.channels, coh, ids.dma); }
    }
  }

  lemma SnoopMember(ids: Ids, channels: seq<nat>, cohs: seq<nat>, tt: string, snoop: nat, c: IlaConfig)
    ensures c in ForSnoop(ids, channels, cohs, tt)(snoop) <==> InSpace(c, ids, [tt], [snoop], cohs, channels)
  {
    var f := ForCoherency(ids, channels, tt, snoop);
    FlatMapMember(cohs, f, c);
    forall coh ensures c in f(coh) <==> InSpace(c, ids, [tt], [snoop], [coh], channels) {
      CoherencyMember(ids, channels, tt, snoop, coh, c);
    }
    if c.coherency in cohs { assert c in f(c.coherency) <==> InSpace(c, ids, [tt], [snoop], [c.coherency], channels); }
  }

  lemma TestMember(ids: Ids, channels: seq<nat>, cohs: seq<nat>, snoops: seq<nat>, tt: string, c: IlaConfig)
    ensures c in ForTest(ids, channels, cohs, snoops)(tt) <==> InSpace(c, ids, [tt], snoops, cohs, channels)
  {
    var f := ForSnoop(ids, channels, cohs, tt);
    FlatMapMember(snoops, f, c);
    forall s ensures c in f(s) <==> InSpace(c, ids, [tt], [s], cohs, channels) {
      SnoopMember(ids, channels, cohs, tt, s, c);
    }
    if c.snoop in snoops { assert c in f(c.snoop) <==> InSpace(c, ids, [tt], [c.snoop], cohs, channels); }
  }

  lemma EnumeratedMember(ids: Ids, tests: seq<string>, snoops: seq<nat>, cohs: seq<nat>, channels: seq<nat>,
                         c: IlaConfig)
    ensures c in Enumerated(ids, tests, snoops, cohs, channels) <==> InSpace(c, ids, tests, snoops, cohs, channels)
  {
    var f := ForTest(ids, channels, cohs, snoops);
    FlatMapMember(tests, f, c);
    forall t ensures c in f(t) <==> InSpace(c, ids, [t], snoops, cohs, channels) {
      TestMember(ids, channels, cohs, snoops, t, c);
    }
    if c.testType in tests { assert c in f(c.testType) <==> InSpace(c, ids, [c.testType], snoops, cohs, channels); }
  }

  lemma CoherencyDistinct(ids: Ids, channels: seq<nat>, tt: string, snoop: nat, coh: nat)
    requires Distinct(channels)
    ensures Distinct(ForCoherency(ids, channels, tt, snoop)(coh))
  {
    if tt != SOLO { FlatMapDistinct(channels, ForChannel(ids, tt, snoop, coh)); }
  }

  lemma SnoopDistinct(ids: Ids, channels: seq<nat>, cohs: seq<nat>, tt: string, snoop: nat)
    requires Distinct(channels) && Distinct(cohs)
    ensures Distinct(ForSnoop(ids, channels, cohs, tt)(snoop))
  {
    var f := ForCoherency(ids, channels, tt, snoop);
    forall x | x in cohs ensures Distinct(f(x)) { CoherencyDistinct(ids, channels, tt, snoop, x); }
    forall x, x', y | x in cohs && x' in cohs && y in f(x) && y in f(x') ensures x == x' {
      CoherencyMember(ids, channels, tt, snoop, x, y);
      CoherencyMember(ids, channels, tt, snoop, x', y);
    }
    FlatMapDistinct(cohs, f);
  }

  lemma TestDistinct(ids: Ids, channels: seq<nat>, cohs: seq<nat>, snoops: seq<nat>, tt: string)
    requires Distinct(channels) && Distinct(cohs) && Distinct(snoops)
    ensures Distinct(ForTest(ids, channels, cohs, snoops)(tt))
  {
    var f := ForSnoop(ids, channels, cohs, tt);
    forall x | x in snoops ensures Distinct(f(x)) { SnoopDistinct(ids, channels, cohs, tt, x); }
    forall x, x', y | x in snoops && x' in snoops && y in f(x) && y in f(x') ensures x == x' {
      SnoopMember(ids, channels, cohs, tt, x, y);
      SnoopMember(ids, channels, cohs, tt, x', y);
    }
    FlatMapDistinct(snoops, f);
  }

  lemma EnumeratedDistinct(ids: Ids, tests: seq<string>, snoops: seq<nat>, cohs: seq<nat>, channels: seq<nat>)
    requires Distinct(tests) && Distinct(snoops) && Distinct(cohs) && Distinct(channels)
    ensures Distinct(Enumerated(ids, tests, snoops, cohs, channels))
  {
    var f := ForTest(ids, channels, cohs, snoops);
    forall x | x in tests ensures Distinct(f(x)) { TestDistinct(ids, channels, cohs, snoops, x); }
    forall x, x', y | x in tests && x' in tests && y in f(x) && y in f(x') ensures x == x' {
      TestMember(ids, channels, cohs, snoops, x, y);
      TestMember(ids, channels, cohs, snoops, x', y);
    }
    FlatMapDistinct(tests, f);
  }

  /** What the dictionary holds.  For any lists, the entry under the name of an enumerated experiment is its
      own, so only an equal experiment can overwrite it; when the lists are duplicate-free no two share a
      name, and there is one entry for each. */
  lemma NoOverwrite(ids: Ids, tests: seq<string>, snoops: seq<nat>, cohs: seq<nat>, channels: seq<nat>)
    ensures var cs := Enumerated(ids, tests, snoops, cohs, channels);
            && (forall c | c in cs :: Name(c) in Files(cs) && IsEntryOf(Files(cs)[Name(c)], c))
            && (forall n | n in Files(cs) :: exists c :: c in cs && Name(c) == n)
            && (Distinct(tests) && Distinct(snoops) && Distinct(cohs) && Distinct(channels) ==>
                  Distinct(Names(cs)) && |Files(cs)| == |cs|)
  {
    var cs := Enumerated(ids, tests, snoops, cohs, channels);
    forall c, c' | c in cs && c' in cs && Name(c) == Name(c') ensures c == c' {
      EnumeratedMember(ids, tests, snoops, cohs, channels, c);
      EnumeratedMember(ids, tests, snoops, cohs, channels, c');
      SameNameSameConfig(c, c', ids, tests, snoops, cohs, channels);
    }
    FilesOwn(cs);
    FilesKeys(cs);
    forall c | c in cs ensures IsEntryOf(Files(cs)[Name(c)], c) { EmittedMeaning(c); }
    if Distinct(tests) && Distinct(snoops) && Distinct(cohs) && Distinct(channels) {
      EnumeratedDistinct(ids, tests, snoops, cohs, channels);
      NamesDistinct(cs);
      FilesSize(cs);
    }
  }

  /** The entry carries the experiment's name, its number of CPU ids, and a mask with exactly their bits. */
  ghost predicate IsEntryOf(e: GuestConfig, c: IlaConfig) {
    && e.image == Name(c) && e.cpuNum == |c.cpuIds|
    && forall cpu: nat :: Bit(e.affinity, cpu) <==> cpu in c.cpuIds
  }

  lemma EmittedMeaning(c: IlaConfig)
    ensures IsEntryOf(Emitted(c), c)
  {
    forall cpu: nat ensures Bit(Mask(c.cpuIds), cpu) <==> cpu in c.cpuIds { MaskBits(c.cpuIds, cpu); }
  }

  function Names(cs: seq<IlaConfig>): (r: seq<string>)
    ensures |r| == |cs|
    ensures forall i | 0 <= i < |cs| :: r[i] == Name(cs[i])
  {
    seq(|cs|, i requires 0 <= i < |cs| => Name(cs[i]))
  }

  ghost predicate NamesTell(cs: seq<IlaConfig>) {
    forall c, c' | c in cs && c' in cs && Name(c) == Name(c') :: c == c'
  }

  lemma NamesDistinct(cs: seq<IlaConfig>)
    requires Distinct(cs) && NamesTell(cs)
    ensures Distinct(Names(cs))
  {
    forall a, b | 0 <= a < b < |cs| ensures Names(cs)[a] != Names(cs)[b] {
      assert cs[a] in cs && cs[b] in cs;
    }
  }

  lemma {:induction false} FilesOwn(cs: seq<IlaConfig>)
    requires NamesTell(cs)
    ensures forall c | c in cs :: Name(c) in Files(cs) && Files(cs)[Name(c)] == Emitted(c)
  {
    if cs != [] {
      var init, last := cs[..|cs| - 1], cs[|cs| - 1];
      assert cs == init + [last];
      FilesOwn(init);
      forall c | c in cs ensures Name(c) in Files(cs) && Files(cs)[Name(c)] == Emitted(c) {
        assert last in cs && (c in init || c == last);
      }
    }
  }

  lemma SameNameSameConfig(c: IlaConfig, c': IlaConfig, ids: Ids, tests: seq<string>, snoops: seq<nat>,
                           cohs: seq<nat>, channels: seq<nat>)
    requires InSpace(c, ids, tests, snoops, cohs, channels) && InSpace(c', ids, tests, snoops, cohs, channels)
    requires Name(c) == Name(c')
    ensures c == c'
  {
    NamesInjective(c.testType, c.snoop, c.channels, c.coherency, |c.cpuIds|,
                   c'.testType, c'.snoop, c'.channels, c'.coherency, |c'.cpuIds|);
  }

  lemma {:induction false} FilesSize(cs: seq<IlaConfig>)
    requires Distinct(Names(cs))
    ensures |Files(cs)| == |cs|
  {
    if cs != [] {
      NewName(cs);
      FilesSize(cs[..|cs| - 1]);
    }
  }

  lemma NewName(cs: seq<IlaConfig>)
    requires cs != [] && Distinct(Names(cs))
    ensures Distinct(Names(cs[..|cs| - 1])) && Name(cs[|cs| - 1]) !in Files(cs[..|cs| - 1])
  {
    var init, last := cs[..|cs| - 1], cs[|cs| - 1];
    var names := Names(cs);
    assert Names(init) == names[..|init|];
    FilesKeys(init);
    forall c | c in init ensures Name(c) != Name(last) {
      var i :| 0 <= i < |init| && init[i] == c;
      assert names[i] != names[|init|];
    }
  }
}
