/** The order of the ranking: exactly for which datasets the sort key orders the rows, and what the result
    then is. */
module RankingOrder {
  import opened Wrappers
  import opened Metrics
  import opened Matrices
  import opened Ranking
  import opened RankingLaws
  import ConfigOrder
  import Sorting
  import Strings

  // ---- when a list of rows is ordered

  /** Every row that accepts nothing still has a CPU0 mean. */
  ghost predicate NoNanKey(rows: seq<Row>) {
    forall r | r in rows && r.rate == 0.0 :: r.mean0.Some?
  }

  ghost predicate ZeroRowsTied(rows: seq<Row>) {
    forall a, b | a in rows && b in rows && a.rate == 0.0 && b.rate == 0.0 :: !RowBefore(a, b)
  }

  lemma RowBeforeAsymmetric(a: Row, b: Row)
    requires RowBefore(a, b)
    ensures !RowBefore(b, a)
  {
    if a.cfg == b.cfg { Strings.LessIrreflexive(a.cfg); }
    if Strings.Less(a.cfg, b.cfg) && Strings.Less(b.cfg, a.cfg) {
      Strings.LessTransitive(a.cfg, b.cfg, a.cfg);
      Strings.LessIrreflexive(a.cfg);
    }
  }

  /** On rows whose keys hold no NaN the comparison is a lexicographic total preorder. */
  lemma NotBeforeTransitive(a: Row, b: Row, c: Row)
    requires a.mean0.Some? && b.mean0.Some? && c.mean0.Some?
    requires a.worst.Some? && b.worst.Some? && c.worst.Some?
    requires !RowBefore(b, a) && !RowBefore(c, b)
    ensures !RowBefore(c, a)
  {
    if a.rate == b.rate == c.rate && a.mean0 == b.mean0 == c.mean0 && a.worst == b.worst == c.worst {
      Strings.LessTotal(a.cfg, b.cfg);
      Strings.LessTotal(b.cfg, c.cfg);
      if Strings.Less(a.cfg, b.cfg) && Strings.Less(b.cfg, c.cfg) {
        Strings.LessTransitive(a.cfg, b.cfg, c.cfg);
      }
      if Strings.Less(c.cfg, a.cfg) && Strings.Less(a.cfg, c.cfg) {
        Strings.LessTransitive(c.cfg, a.cfg, c.cfg);
        Strings.LessIrreflexive(c.cfg);
      }
      Strings.LessIrreflexive(a.cfg);
    }
  }

  /** In terms of the rows: a row of rate 0 without its CPU0 mean ties with all others of rate 0, so these
      must then tie with each other. */
  lemma RowsOrderedIff(rows: seq<Row>)
    requires forall r | r in rows :: WellFormed(r)
    ensures Sorting.OrderOn(RowBefore, rows) <==> NoNanKey(rows) || ZeroRowsTied(rows)
  {
    forall a, b | a in rows && b in rows && RowBefore(a, b) ensures !RowBefore(b, a) { RowBeforeAsymmetric(a, b); }
    if NoNanKey(rows) || ZeroRowsTied(rows) {
      forall a, b, c | a in rows && b in rows && c in rows && !RowBefore(b, a) && !RowBefore(c, b)
        ensures !RowBefore(c, a)
      {
        assert WellFormed(a) && WellFormed(b) && WellFormed(c);
        if a.rate == 0.0 && c.rate == 0.0 && ZeroRowsTied(rows) {
        } else if a.rate == b.rate == c.rate {
          KeyDefined(rows, a);
          KeyDefined(rows, b);
          KeyDefined(rows, c);
          NotBeforeTransitive(a, b, c);
        }
      }
    } else {
      var b :| b in rows && b.rate == 0.0 && b.mean0.None?;
      var a, c :| a in rows && c in rows && a.rate == 0.0 && c.rate == 0.0 && RowBefore(c, a);
      assert !RowBefore(b, a) && !RowBefore(c, b);
    }
  }

  lemma KeyDefined(rows: seq<Row>, r: Row)
    requires r in rows && WellFormed(r)
    requires NoNanKey(rows) || r.rate > 0.0
    ensures r.mean0.Some? && r.worst.Some?
  {
    assert r.mean0 in [r.mean0, r.mean1, r.mean2];
  }

  // ---- when the rows of a dataset are ordered

  /** One benchmark and configuration, which get one row. */
  datatype Entry = Entry(bench: string, cfg: string)

  /** Some checkpoint of the configuration is positive. */
  predicate Recorded(runs: Runs, cfg: string) {
    cfg in runs && exists x | x in runs[cfg] :: x > 0
  }

  /** The arguments of one ranking. */
  datatype Query = Query(data: Dataset, cpu0s: seq<string>, cpu1: string, cpu2s: set<string>, tol: Tolerances) {
    ghost function Rows(): Result<seq<Row>, ScopeError> {
      AllRows(data, cpu0s, cpu1, cpu2s, tol)
    }

    predicate Ranks(e: Entry) {
      e.bench in cpu0s && e.cfg in ConfigsAt(data, SelectedKeys(data, e.bench, Some(cpu1), Some(cpu2s)))
    }

    /** Some selected cell of the entry is accepted. */
    ghost predicate Accepts(e: Entry) {
      exists b2 | b2 in cpu2s :: CellAccepted(data, Key(e.bench, cpu1, b2), e.cfg, tol)
    }

    /** CPU0 was timed in some selected run of the entry. */
    predicate Timed(e: Entry) {
      exists b2 | b2 in cpu2s :: Recorded(RunsOf(data, Key(e.bench, cpu1, b2), CPU0), e.cfg)
    }

    ghost predicate Loses(e: Entry) {
      Ranks(e) && !Accepts(e)
    }

    ghost function Mean(e: Entry, cpu: Cpu): Option<real> {
      var s := ResolveOne(data, e.bench, cpu1, cpu2s);
      if s.Err? then None else NanMean(DeltaRow(data, e.bench, s.value, cpu, e.cfg))
    }

    /** The two mean deltas the sort key looks at. */
    ghost function Means(e: Entry): (Option<real>, Option<real>) {
      (Mean(e, CPU0), NanMax2(NanMax2(Mean(e, CPU0), Mean(e, CPU1)), Mean(e, CPU2)))
    }

    ghost predicate SameKey(e: Entry, e': Entry) {
      e.cfg == e'.cfg && Means(e) == Means(e')
    }

    /** Every ranked entry without an accepted cell was timed on CPU0. */
    ghost predicate AllLosersTimed() {
      forall e | Loses(e) :: Timed(e)
    }

    /** The timed ones among them are one configuration with one pair of means. */
    ghost predicate TimedLosersTie() {
      forall e, e' | Loses(e) && Loses(e') && Timed(e) && Timed(e') :: SameKey(e, e')
    }
  }

  /** The row of an entry, read back to the dataset. */
  lemma EntryRow(q: Query, e: Entry)
    requires q.Ranks(e)
    ensures ResolveOne(q.data, e.bench, q.cpu1, q.cpu2s).Ok?
    ensures var r := RowOf(q.data, e.bench, ResolveOne(q.data, e.bench, q.cpu1, q.cpu2s).value, e.cfg, q.tol);
            && WellFormed(r) && r.cfg == e.cfg && (r.mean0, r.worst) == q.Means(e)
            && (r.rate == 0.0 <==> !q.Accepts(e)) && (r.mean0.Some? <==> q.Timed(e))
  {
    var s := ResolveOne(q.data, e.bench, q.cpu1, q.cpu2s).value;
    RowsAreWellFormed(q.data, e.bench, s, e.cfg, q.tol);
    BenchesSelected(q, e, s);
    RateZeroIff(q, e, s);
    TimedIff(q, e, s);
  }

  lemma BenchesSelected(q: Query, e: Entry, s: Scope)
    requires ResolveOne(q.data, e.bench, q.cpu1, q.cpu2s) == Ok(s)
    ensures s.cpu1 == q.cpu1
    ensures forall b2 :: b2 in s.benches <==> b2 in q.cpu2s && Key(e.bench, q.cpu1, b2) in q.data
  {
    ResolveMeaning(q.data, e.bench, Some(q.cpu1), Some(q.cpu2s));
  }

  /** A cell with a delta belongs to a loaded entry. */
  lemma RecordedIff(q: Query, e: Entry, s: Scope, cpu: Cpu, j: nat)
    requires ResolveOne(q.data, e.bench, q.cpu1, q.cpu2s) == Ok(s) && s.cpu1 == q.cpu1 && j < |s.benches|
    ensures DeltaRow(q.data, e.bench, s, cpu, e.cfg)[j].Some? <==>
            Recorded(RunsOf(q.data, Key(e.bench, q.cpu1, s.benches[j]), cpu), e.cfg)
  {
    CellRange(q.data, Key(e.bench, q.cpu1, s.benches[j]), cpu, e.cfg);
  }

  lemma RateZeroIff(q: Query, e: Entry, s: Scope)
    requires ResolveOne(q.data, e.bench, q.cpu1, q.cpu2s) == Ok(s) && s.cpu1 == q.cpu1
    requires forall b2 :: b2 in s.benches <==> b2 in q.cpu2s && Key(e.bench, q.cpu1, b2) in q.data
    ensures RowOf(q.data, e.bench, s, e.cfg, q.tol).rate == 0.0 <==> !q.Accepts(e)
  {
    RowsAreWellFormed(q.data, e.bench, s, e.cfg, q.tol);
    AcceptedCount(q.data, e.bench, s, e.cfg, q.tol);
    if q.Accepts(e) {
      var b2 :| b2 in q.cpu2s && CellAccepted(q.data, Key(e.bench, q.cpu1, b2), e.cfg, q.tol);
      AcceptedIsLoaded(q.data, Key(e.bench, q.cpu1, b2), e.cfg, q.tol);
      assert b2 in s.benches;
    }
  }

  lemma CountIff(ok: seq<bool>, names: seq<string>, good: string -> bool)
    requires |ok| == |names| && forall j | 0 <= j < |ok| :: ok[j] <==> good(names[j])
    ensures Count(ok) > 0 <==> exists x | x in names :: good(x)
  {
    CountWitness(ok);
    if j :| 0 <= j < |ok| && ok[j] { assert names[j] in names; }
    if x :| x in names && good(x) {
      var j :| 0 <= j < |names| && names[j] == x;
      assert ok[j];
    }
  }

  /** A row accepts nothing exactly when no cell of it is accepted. */
  lemma AcceptedCount(data: Dataset, b0: string, s: Scope, cfg: string, tol: Tolerances)
    ensures RowOf(data, b0, s, cfg, tol).accepted > 0 <==>
            exists b2 | b2 in s.benches :: CellAccepted(data, Key(b0, s.cpu1, b2), cfg, tol)
  {
    var ok := AllAccepted(ClassRow(data, b0, s, CPU0, cfg, tol), ClassRow(data, b0, s, CPU1, cfg, tol),
                          ClassRow(data, b0, s, CPU2, cfg, tol));
    var good := b2 => CellAccepted(data, Key(b0, s.cpu1, b2), cfg, tol);
    forall j | 0 <= j < |s.benches| ensures ok[j] <==> good(s.benches[j]) {
      AcceptedAt(data, b0, s, cfg, tol, j);
    }
    CountIff(ok, s.benches, good);
    assert forall b2 :: good(b2) <==> CellAccepted(data, Key(b0, s.cpu1, b2), cfg, tol);
  }

  lemma AcceptedIsLoaded(data: Dataset, k: Key, cfg: string, tol: Tolerances)
    requires CellAccepted(data, k, cfg, tol)
    ensures k in data
  {
    assert Accepted(ClassCell(data, k, CPU0, cfg, tol));
  }

  lemma {:induction false} DefinedSome(ds: seq<Option<real>>)
    ensures Defined(ds) != [] <==> exists j :: 0 <= j < |ds| && ds[j].Some?
  {
    if ds != [] {
      var n := |ds| - 1;
      DefinedSome(ds[..n]);
      if j :| 0 <= j < |ds| && ds[j].Some? { DefinedNonempty(ds, j); }
      if j :| 0 <= j < n && ds[..n][j].Some? { assert ds[j].Some?; }
    }
  }

  lemma TimedIff(q: Query, e: Entry, s: Scope)
    requires ResolveOne(q.data, e.bench, q.cpu1, q.cpu2s) == Ok(s) && s.cpu1 == q.cpu1
    requires forall b2 :: b2 in s.benches <==> b2 in q.cpu2s && Key(e.bench, q.cpu1, b2) in q.data
    ensures NanMean(DeltaRow(q.data, e.bench, s, CPU0, e.cfg)).Some? <==> q.Timed(e)
  {
    var ds := DeltaRow(q.data, e.bench, s, CPU0, e.cfg);
    DefinedSome(ds);
    if j :| 0 <= j < |ds| && ds[j].Some? {
      RecordedIff(q, e, s, CPU0, j);
      assert s.benches[j] in s.benches;
    }
    if q.Timed(e) {
      var b2 :| b2 in q.cpu2s && Recorded(RunsOf(q.data, Key(e.bench, q.cpu1, b2), CPU0), e.cfg);
      var j :| 0 <= j < |s.benches| && s.benches[j] == b2;
      RecordedIff(q, e, s, CPU0, j);
    }
  }

  ghost function RowFor(q: Query, e: Entry): Row
    requires q.Ranks(e)
  {
    EntryRow(q, e);
    RowOf(q.data, e.bench, ResolveOne(q.data, e.bench, q.cpu1, q.cpu2s).value, e.cfg, q.tol)
  }

  /** The table holds the rows of the ranked entries, and no others. */
  lemma {:induction false} HasRow(q: Query, e: Entry)
    requires q.Rows().Ok? && q.Ranks(e)
    ensures RowFor(q, e) in q.Rows().value
    decreases |q.cpu0s|
  {
    var n := |q.cpu0s| - 1;
    var init := q.(cpu0s := q.cpu0s[..n]);
    assert q.cpu0s == init.cpu0s + [q.cpu0s[n]];
    var more := RowsOf(q.data, q.cpu0s[n], ResolveOne(q.data, q.cpu0s[n], q.cpu1, q.cpu2s).value, q.tol);
    if e.bench in init.cpu0s {
      HasRow(init, e);
    } else {
      var s := ResolveOne(q.data, e.bench, q.cpu1, q.cpu2s).value;
      assert e.cfg in s.cfgs;
      var i :| 0 <= i < |s.cfgs| && s.cfgs[i] == e.cfg;
      assert more[i] == RowFor(q, e);
    }
    assert q.Rows().value == init.Rows().value + more;
  }

  lemma {:induction false} RowHasEntry(q: Query, r: Row) returns (e: Entry)
    requires q.Rows().Ok? && r in q.Rows().value
    ensures q.Ranks(e) && r == RowFor(q, e)
    decreases |q.cpu0s|
  {
    var n := |q.cpu0s| - 1;
    var init := q.(cpu0s := q.cpu0s[..n]);
    assert q.cpu0s == init.cpu0s + [q.cpu0s[n]];
    var s := ResolveOne(q.data, q.cpu0s[n], q.cpu1, q.cpu2s).value;
    var more := RowsOf(q.data, q.cpu0s[n], s, q.tol);
    assert q.Rows().value == init.Rows().value + more;
    if r in init.Rows().value {
      e := RowHasEntry(init, r);
    } else {
      var i :| 0 <= i < |more| && more[i] == r;
      e := Entry(q.cpu0s[n], s.cfgs[i]);
      assert s.cfgs[i] in s.cfgs;
    }
  }

  lemma TiedIff(a: Row, b: Row)
    requires a.rate == b.rate
    ensures Sorting.Tied(RowBefore, a, b) <==>
            a.mean0.None? || b.mean0.None? ||
            (a.mean0 == b.mean0 && (a.worst.None? || b.worst.None? || (a.worst == b.worst && a.cfg == b.cfg)))
  {
    Strings.LessTotal(a.cfg, b.cfg);
    Strings.LessIrreflexive(a.cfg);
  }

  lemma NoNanKeyIff(q: Query)
    requires q.Rows().Ok?
    ensures NoNanKey(q.Rows().value) <==> q.AllLosersTimed()
  {
    var rows := q.Rows().value;
    if NoNanKey(rows) {
      forall e | q.Loses(e) ensures q.Timed(e) {
        EntryRow(q, e);
        HasRow(q, e);
      }
    }
    if q.AllLosersTimed() {
      forall r | r in rows && r.rate == 0.0 ensures r.mean0.Some? {
        var e := RowHasEntry(q, r);
        EntryRow(q, e);
      }
    }
  }

  lemma ZeroRowsTiedIff(q: Query)
    requires q.Rows().Ok?
    ensures ZeroRowsTied(q.Rows().value) <==> q.TimedLosersTie()
  {
    if ZeroRowsTied(q.Rows().value) {
      forall e, e' | q.Loses(e) && q.Loses(e') && q.Timed(e) && q.Timed(e') ensures q.SameKey(e, e') {
        LosersTied(q, e, e');
        HasRow(q, e);
        HasRow(q, e');
      }
    }
    if q.TimedLosersTie() {
      forall a, b | a in q.Rows().value && b in q.Rows().value && a.rate == 0.0 && b.rate == 0.0
        ensures !RowBefore(a, b)
      {
        ZeroRowsTie(q, a, b);
      }
    }
  }

  lemma LosersTie(q: Query, e: Entry, e': Entry)
    requires q.TimedLosersTie() && q.Loses(e) && q.Loses(e')
    ensures Sorting.Tied(RowBefore, RowFor(q, e), RowFor(q, e'))
  {
    assert q.Timed(e) && q.Timed(e') ==> q.SameKey(e, e');
    LosersTied(q, e, e');
  }

  lemma ZeroRowsTie(q: Query, a: Row, b: Row)
    requires q.Rows().Ok? && a in q.Rows().value && b in q.Rows().value && a.rate == b.rate == 0.0
    requires q.TimedLosersTie()
    ensures Sorting.Tied(RowBefore, a, b)
  {
    var e := RowHasEntry(q, a);
    var e' := RowHasEntry(q, b);
    ZeroRowLoses(q, e);
    ZeroRowLoses(q, e');
    LosersTie(q, e, e');
  }

  lemma ZeroRowLoses(q: Query, e: Entry)
    requires q.Ranks(e) && RowFor(q, e).rate == 0.0
    ensures q.Loses(e)
  {
    EntryRow(q, e);
  }

  lemma LosersTied(q: Query, e: Entry, e': Entry)
    requires q.Loses(e) && q.Loses(e')
    ensures RowFor(q, e).rate == RowFor(q, e').rate == 0.0
    ensures Sorting.Tied(RowBefore, RowFor(q, e), RowFor(q, e')) <==>
            (q.Timed(e) && q.Timed(e') ==> q.SameKey(e, e'))
  {
    EntryRow(q, e);
    EntryRow(q, e');
    var a, b := RowFor(q, e), RowFor(q, e');
    assert a.mean0 in [a.mean0, a.mean1, a.mean2] && b.mean0 in [b.mean0, b.mean1, b.mean2];
    TiedIff(a, b);
  }

  /** Exactly for which datasets and tolerances the sort key orders the rows: either every entry without an
      accepted cell was timed on CPU0, or those that were timed all tie.  Otherwise a NaN key ties with two
      rows that do not tie with each other, and the order is an accident of the sorting algorithm. */
  lemma KeyOrdersIff(q: Query)
    requires q.Rows().Ok?
    ensures Sorting.OrderOn(RowBefore, q.Rows().value) <==> q.AllLosersTimed() || q.TimedLosersTie()
  {
    AllRowsWellFormed(q.data, q.cpu0s, q.cpu1, q.cpu2s, q.tol);
    RowsOrderedIff(q.Rows().value);
    NoNanKeyIff(q);
    ZeroRowsTiedIff(q);
  }

  // ---- the result

  /** No row of the list is better than `r` in the documented priorities. */
  ghost predicate Undominated(r: Row, rows: seq<Row>) {
    forall o | o in rows ::
      && o.rate <= r.rate
      && (o.rate == r.rate && o.mean0.Some? && r.mean0.Some? ==> o.mean0.value >= r.mean0.value)
      && (o.rate == r.rate && NanEqual(o.mean0, r.mean0) && o.worst.Some? && r.worst.Some? ==>
          o.worst.value >= r.worst.value)
  }

  /** The two rows stand in the documented order: by falling rate, then rising CPU0 mean, then rising
      worst mean, then name. */
  predicate InKeyOrder(a: Row, b: Row) {
    && a.rate >= b.rate
    && (a.rate == b.rate && a.mean0.Some? && b.mean0.Some? ==> a.mean0.value <= b.mean0.value)
    && (a.rate == b.rate && a.mean0.Some? && a.mean0 == b.mean0 && a.worst.Some? && b.worst.Some? ==>
          a.worst.value <= b.worst.value)
    && (a.rate == b.rate && a.mean0.Some? && a.mean0 == b.mean0 && a.worst.Some? && a.worst == b.worst ==>
          a.cfg == b.cfg || Strings.Less(a.cfg, b.cfg))
  }

  /** The result: a stable permutation of all rows in key order, the only one, whose first row is
      dominated by no other. */
  lemma RankingIsOrdered(q: Query, ranked: seq<Row>)
    requires q.Rows().Ok? && ranked == Sorting.Sort(RowBefore, q.Rows().value)
    requires q.AllLosersTimed() || q.TimedLosersTie()
    ensures Sorting.IsStableSort(RowBefore, q.Rows().value, ranked)
    ensures forall r | Sorting.IsStableSort(RowBefore, q.Rows().value, r) :: r == ranked
    ensures forall i, j | 0 <= i < j < |ranked| :: InKeyOrder(ranked[i], ranked[j])
    ensures forall i, j | 0 <= i < j < |ranked| :: !RowBefore(ranked[j], ranked[i])
    ensures ranked != [] ==> Undominated(ranked[0], ranked)
  {
    var rows := q.Rows().value;
    KeyOrdersIff(q);
    Sorting.SortIsStable(RowBefore, rows);
    forall r | Sorting.IsStableSort(RowBefore, rows, r) ensures r == ranked {
      Sorting.StableSortUnique(RowBefore, rows, r);
    }
    if ranked != [] {
      FirstUndominated(ranked);
    }
    forall i, j | 0 <= i < j < |ranked| ensures InKeyOrder(ranked[i], ranked[j]) {
      NotBeforeMeaning(ranked[i], ranked[j]);
    }
  }

  lemma NotBeforeMeaning(a: Row, b: Row)
    requires !RowBefore(b, a)
    ensures InKeyOrder(a, b)
  {
    Strings.LessTotal(a.cfg, b.cfg);
  }

  lemma FirstUndominated(ranked: seq<Row>)
    requires ranked != [] && Sorting.Sorted(RowBefore, ranked)
    ensures Undominated(ranked[0], ranked)
  {
    forall o | o in ranked
      ensures o.rate <= ranked[0].rate
      ensures o.rate == ranked[0].rate ==> !NanLess(o.mean0, ranked[0].mean0)
      ensures o.rate == ranked[0].rate && NanEqual(o.mean0, ranked[0].mean0) ==> !NanLess(o.worst, ranked[0].worst)
    {
      var j :| 0 <= j < |ranked| && ranked[j] == o;
      if j > 0 { assert !RowBefore(ranked[j], ranked[0]); }
    }
  }

  // ---- a dataset without an order

  /** Three configurations, none measured on CPU2: "a" is timed at 2, "c" at 1, "b" not at all. */
  function UntimedDataset(): Dataset {
    map[Key("p", "cache_q", "r") := map[CPU0 := map["a" := [2], "c" := [1]], CPU1 := map["b" := [1]]]]
  }

  function UntimedQuery(tol: Tolerances): Query {
    Query(UntimedDataset(), ["p"], "cache_q", {"r"}, tol)
  }

  const UNTIMED_KEY := Key("p", "cache_q", "r")

  lemma UntimedConfigs()
    ensures Sorting.IsOrdering(ConfigOrder.Before, {"a", "b", "c"}, ["a", "b", "c"])
  {
    assert Strings.Less("a", "b") && Strings.Less("b", "c") && Strings.Less("a", "c");
    assert ConfigOrder.KeyOf("a").group == 2 && ConfigOrder.KeyOf("b").group == 2 && ConfigOrder.KeyOf("c").group == 2;
  }

  lemma UntimedKeys(tol: Tolerances)
    ensures var q := UntimedQuery(tol);
            && SelectedKeys(q.data, "p", Some("cache_q"), Some({"r"})) == {UNTIMED_KEY}
            && ConfigsAt(q.data, {UNTIMED_KEY}) == {"a", "b", "c"}
  {
    var data := UntimedDataset();
    assert UNTIMED_KEY in data && CPU0 in data[UNTIMED_KEY] && CPU1 in data[UNTIMED_KEY];
    assert "a" in data[UNTIMED_KEY][CPU0] && "c" in data[UNTIMED_KEY][CPU0] && "b" in data[UNTIMED_KEY][CPU1];
  }

  function UntimedScope(): Scope {
    Scope("cache_q", ["r"], ["a", "b", "c"])
  }

  lemma UntimedOrdered()
    ensures ConfigOrder.Ordered({"a", "b", "c"}) == ["a", "b", "c"]
  {
    UntimedConfigs();
    ConfigOrder.BeforeTotal({"a", "b", "c"});
    Sorting.OrderingUnique(ConfigOrder.Before, {"a", "b", "c"}, ["a", "b", "c"], ConfigOrder.Ordered({"a", "b", "c"}));
  }

  lemma ResolveFrom(data: Dataset, b0: string, cpu1: string, cpu2s: set<string>, k: Key)
    requires SelectedKeys(data, b0, Some(cpu1), Some(cpu2s)) == {k}
    ensures ResolveOne(data, b0, cpu1, cpu2s) ==
            Ok(Scope(cpu1, ConfigOrder.Alphabetical({k.b2}), ConfigOrder.Ordered(ConfigsAt(data, {k}))))
  {
    var keys := SelectedKeys(data, b0, Some(cpu1), Some(cpu2s));
    assert k in keys;
    var names := set k' | k' in keys :: k'.b2;
    assert k.b2 in names;
    assert names == {k.b2};
  }

  lemma UntimedResolves(tol: Tolerances)
    ensures var q := UntimedQuery(tol); ResolveOne(q.data, "p", q.cpu1, q.cpu2s) == Ok(UntimedScope())
  {
    UntimedKeys(tol);
    UntimedOrdered();
    AlphabeticalOne("r");
    ResolveFrom(UntimedDataset(), "p", "cache_q", {"r"}, UNTIMED_KEY);
  }

  lemma AlphabeticalOne(name: string)
    ensures ConfigOrder.Alphabetical({name}) == [name]
  {
    ConfigOrder.NamesTotal({name});
    assert Sorting.IsOrdering(Strings.Less, {name}, [name]);
    Sorting.OrderingUnique(Strings.Less, {name}, [name], ConfigOrder.Alphabetical({name}));
  }

  lemma UntimedMetrics()
    ensures MetricsOf(CPU0, map["a" := [2], "c" := [1]]) == map["a" := 0.002, "c" := 0.001]
  {
    assert Cleaned([2]) == [2] && Cleaned([1]) == [1];
    assert Sum([2]) == 2 && Sum([1]) == 1;
  }

  lemma UntimedDeltas()
    ensures DeltaCell(UntimedDataset(), UNTIMED_KEY, CPU0, "a") == Some(100.0)
    ensures DeltaCell(UntimedDataset(), UNTIMED_KEY, CPU0, "b") == None
    ensures DeltaCell(UntimedDataset(), UNTIMED_KEY, CPU0, "c") == Some(0.0)
  {
    UntimedMetrics();
    var m := map["a" := 0.002, "c" := 0.001];
    assert RunsOf(UntimedDataset(), UNTIMED_KEY, CPU0) == map["a" := [2], "c" := [1]];
    assert "c" in m && m["c"] == 0.001;
    BestUnique(CPU0, m, 0.001);
  }

  lemma SumOfOne(x: real, xs: seq<real>)
    requires xs == [x]
    ensures SumOf(xs) == x
  {
    assert xs[..0] == [];
  }

  lemma DefinedOne(d: Option<real>, ds: seq<Option<real>>)
    requires ds == [d]
    ensures Defined(ds) == if d.Some? then [d.value] else []
  {
    assert ds[..0] == [];
  }

  lemma MeanOfOne(d: Option<real>, ds: seq<Option<real>>)
    requires ds == [d]
    ensures NanMean(ds) == d
  {
    DefinedOne(d, ds);
    if d.Some? { SumOfOne(d.value, Defined(ds)); }
  }

  lemma UntimedLoses(tol: Tolerances, cfg: string)
    requires cfg in ["a", "b", "c"]
    ensures UntimedQuery(tol).Loses(Entry("p", cfg))
  {
    var q := UntimedQuery(tol);
    UntimedKeys(tol);
    assert "p" in q.cpu0s;
    forall b2 | b2 in q.cpu2s ensures !CellAccepted(q.data, Key("p", "cache_q", b2), cfg, tol) {
      assert RunsOf(q.data, Key("p", "cache_q", b2), CPU2) == map[];
      CellRange(q.data, Key("p", "cache_q", b2), CPU2, cfg);
      ByCpu(q.data, Key("p", "cache_q", b2), cfg, tol);
    }
  }

  lemma UntimedMean(cfg: string)
    ensures NanMean(DeltaRow(UntimedDataset(), "p", UntimedScope(), CPU0, cfg)) ==
            DeltaCell(UntimedDataset(), UNTIMED_KEY, CPU0, cfg)
  {
    var d := DeltaCell(UntimedDataset(), UNTIMED_KEY, CPU0, cfg);
    MeanOfOne(d, DeltaRow(UntimedDataset(), "p", UntimedScope(), CPU0, cfg));
  }

  ghost predicate UnacceptedRow(r: Row, cfg: string, mean: Option<real>) {
    r.cfg == cfg && r.rate == 0.0 && r.mean0 == mean
  }

  lemma UntimedRow(tol: Tolerances, i: nat)
    requires i < 3
    ensures var rows, cfg := RowsOf(UntimedDataset(), "p", UntimedScope(), tol), UntimedScope().cfgs[i];
            UnacceptedRow(rows[i], cfg, DeltaCell(UntimedDataset(), UNTIMED_KEY, CPU0, cfg))
  {
    var cfg := UntimedScope().cfgs[i];
    UntimedResolves(tol);
    UntimedLoses(tol, cfg);
    EntryRow(UntimedQuery(tol), Entry("p", cfg));
    UntimedMean(cfg);
  }

  lemma UntimedRows(tol: Tolerances)
    ensures UntimedQuery(tol).Rows() == Ok(RowsOf(UntimedDataset(), "p", UntimedScope(), tol))
  {
    var q := UntimedQuery(tol);
    UntimedResolves(tol);
    assert q.cpu0s[..0] == [];
    assert AllRows(q.data, [], q.cpu1, q.cpu2s, tol) == Ok([]);
    var rows := RowsOf(q.data, "p", UntimedScope(), tol);
    assert [] + rows == rows;
  }

  ghost predicate OutOfOrder(rows: seq<Row>) {
    && |rows| == 3 && rows[0].cfg == "a" && rows[1].cfg == "b" && rows[2].cfg == "c"
    && !RowBefore(rows[1], rows[0]) && !RowBefore(rows[2], rows[1]) && RowBefore(rows[2], rows[0])
  }

  lemma ThreeOutOfOrder(rows: seq<Row>)
    requires |rows| == 3
    requires UnacceptedRow(rows[0], "a", Some(100.0)) && UnacceptedRow(rows[1], "b", None) &&
             UnacceptedRow(rows[2], "c", Some(0.0))
    ensures OutOfOrder(rows)
  {
  }

  lemma UntimedOutOfOrder(tol: Tolerances, rows: seq<Row>)
    requires rows == RowsOf(UntimedDataset(), "p", UntimedScope(), tol)
    ensures OutOfOrder(rows)
  {
    UntimedDeltas();
    forall i: nat | i < 3
      ensures UnacceptedRow(rows[i], UntimedScope().cfgs[i],
                            DeltaCell(UntimedDataset(), UNTIMED_KEY, CPU0, UntimedScope().cfgs[i]))
    {
      UntimedRow(tol, i);
    }
    ThreeOutOfOrder(rows);
  }

  lemma OutOfOrderNoOrder(rows: seq<Row>)
    requires OutOfOrder(rows)
    ensures !Sorting.OrderOn(RowBefore, rows)
  {
    assert rows[0] in rows && rows[1] in rows && rows[2] in rows;
  }

  /** A concrete failure, whatever the tolerances: no two neighbours of the table are out of order, so a
      sort that looks for an ascending run returns it as it is, although the third row belongs before the
      first. */
  lemma NanBreaksTheOrder(tol: Tolerances)
    ensures var q := UntimedQuery(tol);
            && q.Rows().Ok? && OutOfOrder(q.Rows().value)
            && !Sorting.OrderOn(RowBefore, q.Rows().value) && !q.AllLosersTimed() && !q.TimedLosersTie()
  {
    UntimedRows(tol);
    UntimedOutOfOrder(tol, UntimedQuery(tol).Rows().value);
    OutOfOrderNoOrder(UntimedQuery(tol).Rows().value);
    KeyOrdersIff(UntimedQuery(tol));
  }
}
