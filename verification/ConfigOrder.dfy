/** The canonical order of cache-colouring configurations (DAAT-MCS_tuner.py, `cfg_sort_key` and
    `order_cfg_list`). */
module ConfigOrder {
  import opened Strings
  import Sorting

  const CFG_LABEL_MAP: map<string, string> := map[
    "interf" := "interf",
    "2_2_4-8" := "c1",
    "2_4_2-8" := "c2",
    "2_3_3-8" := "c3",
    "3_2_3-8" := "c4",
    "3_3_2-8" := "c5",
    "4_2_2-8" := "c6"
  ]

  function Label(cfg: string): string {
    if cfg in CFG_LABEL_MAP then CFG_LABEL_MAP[cfg] else cfg
  }

  /** The label has the shape `c` followed by at least one digit, and nothing else. */
  predicate IsNumbered(cfg: string) {
    var lab := Label(cfg);
    |lab| >= 2 && lab[0] == 'c' && AllDigits(lab[1..])
  }

  datatype SortKey = SortKey(group: nat, number: nat, name: string)

  function KeyOf(cfg: string): SortKey {
    if cfg == "interf" then SortKey(0, 0, cfg)
    else if IsNumbered(cfg) then SortKey(1, ParseDecimal(Label(cfg)[1..]), cfg)
    else SortKey(2, 1_000_000_000, cfg)
  }

  /** Python's `<` on the key tuples. */
  predicate KeyLess(a: SortKey, b: SortKey) {
    if a.group != b.group then a.group < b.group
    else if a.number != b.number then a.number < b.number
    else Strings.Less(a.name, b.name)
  }

  predicate Before(a: string, b: string) {
    KeyLess(KeyOf(a), KeyOf(b))
  }

  /** No two configurations tie, so a set of them has one order. */
  lemma BeforeTotal(s: set<string>)
    ensures Sorting.TotalOn(Before, s)
  {
    forall a | a in s ensures !Before(a, a) { LessIrreflexive(a); }
    forall a, b | a in s && b in s && a != b ensures Before(a, b) || Before(b, a) { BeforeOneWay(a, b); }
    forall a, b, c | a in s && b in s && c in s && Before(a, b) && Before(b, c) ensures Before(a, c) {
      BeforeTransitive(a, b, c);
    }
  }

  lemma BeforeOneWay(a: string, b: string)
    requires a != b
    ensures Before(a, b) || Before(b, a)
  {
    LessTotal(a, b);
  }

  lemma BeforeTransitive(a: string, b: string, c: string)
    requires Before(a, b) && Before(b, c)
    ensures Before(a, c)
  {
    var x, y, z := KeyOf(a), KeyOf(b), KeyOf(c);
    if x.group == y.group == z.group && x.number == y.number == z.number {
      LessTransitive(a, b, c);
    }
  }

  lemma NamesTotal(s: set<string>)
    ensures Sorting.TotalOn(Strings.Less, s)
  {
    forall a | a in s ensures !Strings.Less(a, a) { LessIrreflexive(a); }
    forall a, b | a in s && b in s && a != b ensures Strings.Less(a, b) || Strings.Less(b, a) { LessTotal(a, b); }
    forall a, b, c | a in s && b in s && c in s && Strings.Less(a, b) && Strings.Less(b, c) ensures Strings.Less(a, c) {
      LessTransitive(a, b, c);
    }
  }

  /** The order `order_cfg_list` must produce for a set of configurations. */
  ghost function Ordered(s: set<string>): (r: seq<string>)
    ensures Sorting.IsOrdering(Before, s, r)
  {
    BeforeTotal(s);
    Sorting.Ordering(Before, s)
  }

  /** `sorted` of a set of names. */
  ghost function Alphabetical(s: set<string>): (r: seq<string>)
    ensures Sorting.IsOrdering(Strings.Less, s, r)
  {
    NamesTotal(s);
    Sorting.Ordering(Strings.Less, s)
  }

  method OrderCfgList(s: set<string>) returns (r: seq<string>)
    ensures r == Ordered(s)
  {
    BeforeTotal(s);
    r := Sorting.SortSet(Before, s);
  }

  method SortNames(s: set<string>) returns (r: seq<string>)
    ensures r == Alphabetical(s)
  {
    NamesTotal(s);
    r := Sorting.SortSet(Strings.Less, s);
  }

  lemma HeadFirst(s: set<string>, r: seq<string>, k: nat)
    requires Sorting.IsOrdering(Before, s, r) && k < |r|
    ensures r[0] == r[k] || Before(r[0], r[k])
  {
  }

  /** What the order means: the uncoloured run comes first, then the numbered labels in increasing
      numeric order, then everything else alphabetically; and any strictly increasing list of the same
      set is this list, so the set's own iteration order cannot show. */
  lemma OrderedShape(s: set<string>, r: seq<string>)
    requires Sorting.IsOrdering(Before, s, r)
    ensures r == Ordered(s)
    ensures "interf" in s ==> r != [] && r[0] == "interf"
    ensures forall i, j | 0 <= i < j < |r| :: IsNumbered(r[j]) ==> r[i] == "interf" || IsNumbered(r[i])
    ensures forall i, j | 0 <= i < j < |r| && IsNumbered(r[i]) && IsNumbered(r[j]) ::
              ParseDecimal(Label(r[i])[1..]) <= ParseDecimal(Label(r[j])[1..])
    ensures forall i, j | 0 <= i < j < |r| && KeyOf(r[i]).group == 2 :: Strings.Less(r[i], r[j])
  {
    BeforeTotal(s);
    Sorting.OrderingUnique(Before, s, r, Ordered(s));
    assert !IsNumbered("interf") by {
      assert Label("interf") == "interf";
    }
    if "interf" in s {
      var k :| 0 <= k < |r| && r[k] == "interf";
      HeadFirst(s, r, k);
    }
    forall i, j | 0 <= i < j < |r|
      ensures IsNumbered(r[j]) ==> r[i] == "interf" || IsNumbered(r[i])
      ensures IsNumbered(r[i]) && IsNumbered(r[j]) ==>
                ParseDecimal(Label(r[i])[1..]) <= ParseDecimal(Label(r[j])[1..])
      ensures KeyOf(r[i]).group == 2 ==> Strings.Less(r[i], r[j])
    {
      assert Before(r[i], r[j]);
    }
  }

  /** The known configurations in their order, the one of their labels; they are labelled interf, c1 to c6. */
  const KNOWN: seq<string> := ["interf", "2_2_4-8", "2_4_2-8", "2_3_3-8", "3_2_3-8", "3_3_2-8", "4_2_2-8"]

  lemma KnownKeys()
    ensures KeyOf(KNOWN[0]) == SortKey(0, 0, "interf") && Label(KNOWN[0]) == "interf"
    ensures forall i | 1 <= i < 7 :: Label(KNOWN[i]) == "c" + Decimal(i)
  {
    assert Decimal(1) == "1" && Decimal(2) == "2" && Decimal(3) == "3";
    assert Decimal(4) == "4" && Decimal(5) == "5" && Decimal(6) == "6";
  }

  lemma LabelNumber(cfg: string, n: nat, d: string)
    requires cfg != "interf" && d == Decimal(n) && Label(cfg) == "c" + d
    ensures KeyOf(cfg) == SortKey(1, n, cfg)
  {
    DecimalRoundTrip(n);
    assert ("c" + d)[1..] == d;
  }

  lemma KnownOrder()
    ensures Sorting.IsOrdering(Before, (set c | c in KNOWN), KNOWN)
  {
    KnownKeys();
    forall i | 1 <= i < 7 ensures KeyOf(KNOWN[i]) == SortKey(1, i, KNOWN[i]) {
      assert KNOWN[i] != "interf";
      LabelNumber(KNOWN[i], i, Decimal(i));
    }
  }

  /** Configurations named by a label of their own go by its number. */
  lemma NumberedOrder(n: nat, m: nat)
    ensures "c" + Decimal(n) !in CFG_LABEL_MAP
    ensures Before("c" + Decimal(n), "c" + Decimal(m)) <==> n < m
  {
    var d, e := Decimal(n), Decimal(m);
    NotMapped(d);
    NotMapped(e);
    LabelNumber("c" + d, n, d);
    LabelNumber("c" + e, m, e);
    if n == m { LessIrreflexive("c" + d); }
  }

  lemma NotMapped(d: string)
    ensures "c" + d !in CFG_LABEL_MAP && "c" + d != "interf" && Label("c" + d) == "c" + d
  {
    assert ("c" + d)[0] == 'c';
  }
}
