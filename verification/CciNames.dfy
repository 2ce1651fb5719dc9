/** The names of the CCI experiments: how baremetal.py prints them and how ila_waves_info.py
    (`parse_test_folder`) and hist_macro.py (`parse_folder_name`) read them back. */
module CciNames {
  import opened Wrappers
  import opened Strings

  const SOLO := "TEST_TYPE_SOLO"

  // ---- the printer

  /** The part of a name after the test type. */
  function Tail(snoop: nat, channels: nat, coherency: nat, cpus: nat): string {
    "_snoop" + Decimal(snoop) + ("_ch" + Decimal(channels) + ("_coh" + Decimal(coherency) + ("_C" + Decimal(cpus))))
  }

  function ConfigName(testType: string, snoop: nat, channels: nat, coherency: nat, cpus: nat): string {
    "baremetal_cci_" + testType + Tail(snoop, channels, coherency, cpus)
  }

  // ---- names are injective

  lemma DecimalLast(n: nat)
    ensures Decimal(n)[|Decimal(n)| - 1] == ('0' as nat + n % 10) as char
    ensures n >= 10 ==> Decimal(n)[..|Decimal(n)| - 1] == Decimal(n / 10)
    ensures n < 10 ==> |Decimal(n)| == 1
  {
  }

  /** A trailing number can be cut off a string in one way only. */
  lemma {:induction false} CutNumber(a: string, n: nat, b: string, m: nat)
    requires a != "" && !IsDigit(a[|a| - 1]) && b != "" && !IsDigit(b[|b| - 1])
    requires a + Decimal(n) == b + Decimal(m)
    ensures a == b && n == m
    decreases n
  {
    DecimalLast(n);
    DecimalLast(m);
    var s, t := a + Decimal(n), b + Decimal(m);
    assert s[|s| - 1] == t[|t| - 1];
    assert n % 10 == m % 10;
    var s', t' := s[..|s| - 1], t[..|t| - 1];
    assert n < 10 ==> s' == a;
    assert m < 10 ==> t' == b;
    assert n >= 10 ==> s' == a + Decimal(n / 10);
    assert m >= 10 ==> t' == b + Decimal(m / 10);
    EndsInDigit(a, n / 10);
    EndsInDigit(b, m / 10);
    if n >= 10 && m >= 10 {
      CutNumber(a, n / 10, b, m / 10);
    }
  }

  lemma EndsInDigit(a: string, n: nat)
    ensures var s := a + Decimal(n); IsDigit(s[|s| - 1])
  {
    assert IsDigit(Decimal(n)[|Decimal(n)| - 1]);
  }

  predicate Separator(sep: string) {
    sep != "" && !IsDigit(sep[|sep| - 1])
  }

  /** The same, for a number behind a separator that does not end in a digit. */
  lemma CutField(a: string, sep: string, n: nat, d: string, b: string, n': nat, d': string)
    requires Separator(sep) && d == Decimal(n) && d' == Decimal(n')
    requires a + sep + d == b + sep + d'
    ensures a == b && n == n'
  {
    CutNumber(a + sep, n, b + sep, n');
    assert a == (a + sep)[..|a + sep| - |sep|] && b == (b + sep)[..|b + sep| - |sep|];
  }

  lemma Assoc(a: string, b: string, c: string)
    ensures a + (b + c) == a + b + c
  {
  }

  lemma Flatten(x: string, d1: string, d2: string, d3: string, d4: string)
    ensures x + ("_snoop" + d1 + ("_ch" + d2 + ("_coh" + d3 + ("_C" + d4)))) ==
            x + "_snoop" + d1 + "_ch" + d2 + "_coh" + d3 + "_C" + d4
  {
    var y1 := x + "_snoop" + d1;
    var y2 := y1 + "_ch" + d2;
    var y3 := y2 + "_coh" + d3;
    Assoc(y3, "_C", d4);
    Assoc(y2, "_coh" + d3, "_C" + d4);
    Assoc(y2, "_coh", d3);
    Assoc(y1, "_ch" + d2, "_coh" + d3 + ("_C" + d4));
    Assoc(y1, "_ch", d2);
    Assoc(x, "_snoop" + d1, "_ch" + d2 + ("_coh" + d3 + ("_C" + d4)));
    Assoc(x, "_snoop", d1);
  }

  lemma CutTwo(a: string, sep1: string, n: nat, d: string, sep2: string, m: nat, e: string,
               b: string, n': nat, d': string, m': nat, e': string)
    requires Separator(sep1) && Separator(sep2)
    requires d == Decimal(n) && e == Decimal(m) && d' == Decimal(n') && e' == Decimal(m')
    requires a + sep1 + d + sep2 + e == b + sep1 + d' + sep2 + e'
    ensures a == b && n == n' && m == m'
  {
    CutField(a + sep1 + d, sep2, m, e, b + sep1 + d', m', e');
    CutField(a, sep1, n, d, b, n', d');
  }

  /** Distinct experiments have distinct names, whatever string is used as the test type. */
  lemma NamesInjective(tt: string, s: nat, ch: nat, coh: nat, n: nat, tt': string, s': nat, ch': nat, coh': nat,
                       n': nat)
    requires ConfigName(tt, s, ch, coh, n) == ConfigName(tt', s', ch', coh', n')
    ensures tt == tt' && s == s' && ch == ch' && coh == coh' && n == n'
  {
    var h := "baremetal_cci_";
    var x, x' := h + tt, h + tt';
    var d1, d2, d3, d4 := Decimal(s), Decimal(ch), Decimal(coh), Decimal(n);
    var e1, e2, e3, e4 := Decimal(s'), Decimal(ch'), Decimal(coh'), Decimal(n');
    Flatten(x, d1, d2, d3, d4);
    Flatten(x', e1, e2, e3, e4);
    CutTwo(x + "_snoop" + d1 + "_ch" + d2, "_coh", coh, d3, "_C", n, d4, x' + "_snoop" + e1 + "_ch" + e2, coh', e3,
           n', e4);
    CutTwo(x, "_snoop", s, d1, "_ch", ch, d2, x', s', e1, ch', e2);
    assert tt == x[|h|..] && tt' == x'[|h|..];
  }

  // ---- parse_test_folder: one regular expression, searched for

  datatype Groups = Groups(testType: string, snoop: nat, channels: nat, coherency: nat)

  datatype TestInfo = TestInfo(interference: string, snoopType: string, channels: nat, coherency: string, snoopId: nat)

  datatype NameError = InvalidFolderName

  const HEAD := "baremetal_cci_TEST_TYPE_"

  /** `[01]_C\d+` at the start of `s`. */
  function MatchCoherency(s: string): Option<nat> {
    if |s| > 0 && (s[0] == '0' || s[0] == '1') && StartsAt(s, 1, "_C") && DigitRun(s[3..]) > 0
    then Some(DigitValue(s[0])) else None
  }

  /** `\d+_coh[01]_C\d+` at the start of `s`.  A digit run is followed by an underscore, so giving back
      digits never helps and the greedy run decides. */
  function MatchChannels(s: string): Option<(nat, nat)> {
    var k := DigitRun(s);
    if k == 0 || !StartsAt(s, k, "_coh") then None
    else
      var coherency := MatchCoherency(s[k + 4..]);
      if coherency.None? then None else Some((ParseDecimal(s[..k]), coherency.value))
  }

  /** The expression after the test type, `_snoop[12]_ch\d+_coh[01]_C\d+`, at the start of `s`. */
  function MatchTail(s: string): Option<(nat, nat, nat)> {
    if !(StartsAt(s, 0, "_snoop") && |s| > 6 && (s[6] == '1' || s[6] == '2')) then None
    else if !StartsAt(s, 7, "_ch") then None
    else
      var rest := MatchChannels(s[10..]);
      if rest.None? then None else Some((DigitValue(s[6]), rest.value.0, rest.value.1))
  }

  /** The three alternatives are tried in the order in which they are written. */
  function MatchAlternative(s: string, alternative: string): Option<Groups> {
    if !StartsAt(s, 0, alternative) then None
    else
      var tail := MatchTail(s[|alternative|..]);
      if tail.None? then None else Some(Groups(alternative, tail.value.0, tail.value.1, tail.value.2))
  }

  function MatchHere(s: string): Option<Groups> {
    if !StartsAt(s, 0, HEAD) then None
    else
      var rest := s[|HEAD|..];
      var solo := MatchAlternative(rest, "SOLO");
      var dma := MatchAlternative(rest, "DMA");
      if solo.Some? then solo else if dma.Some? then dma else MatchAlternative(rest, "DMA_FPGA")
  }

  /** `re.search`: the leftmost match. */
  function Search(s: string): Option<Groups> {
    var here := MatchHere(s);
    if here.Some? || s == "" then here else Search(s[1..])
  }

  function ParseTestFolder(folder: string): Result<TestInfo, NameError> {
    var m := Search(folder);
    if m.None? then Err(InvalidFolderName)
    else
      var g := m.value;
      Ok(TestInfo(
        if g.testType == "SOLO" then "solo" else if g.testType == "DMA" then "dma_interf"
        else if g.testType == "DMA_FPGA" then "dma+fpga_interf" else "unknown",
        if g.snoop == 1 then "read" else "write",
        g.channels,
        if g.coherency == 1 then "coherent" else "non_coherent",
        g.snoop))
  }

  // ---- parse_folder_name: substring tests and three independent searches

  datatype FolderMeta = FolderMeta(testType: string, snoop: nat, channels: nat, coherency: nat)

  /** `tag` directly followed by a digit, at position `i`. */
  predicate TagAt(s: string, tag: string, i: nat) {
    StartsAt(s, i, tag) && i + |tag| < |s| && IsDigit(s[i + |tag|])
  }

  /** `re.search(tag + "(\d+)")`, from position `i` on: the number behind the leftmost such tag. */
  function TagNumber(s: string, tag: string, i: nat): Option<nat>
    requires i <= |s|
    decreases |s| - i
  {
    if TagAt(s, tag, i) then
      var digits := s[i + |tag|..];
      Some(ParseDecimal(digits[..DigitRun(digits)]))
    else if i == |s| then None
    else TagNumber(s, tag, i + 1)
  }

  function ParseFolderName(folder: string): Option<FolderMeta> {
    var testType :=
      if Contains(folder, "TEST_TYPE_DMA_FPGA") then Some("DMA_FPGA")
      else if Contains(folder, "TEST_TYPE_DMA") then Some("DMA")
      else if Contains(folder, "TEST_TYPE_SOLO") then Some("SOLO")
      else None;
    var snoop := TagNumber(folder, "snoop", 0);
    var channels := TagNumber(folder, "ch", 0);
    var coherency := TagNumber(folder, "coh", 0);
    if testType.None? || snoop.None? || channels.None? || coherency.None? then None
    else Some(FolderMeta(testType.value, snoop.value, channels.value, coherency.value))
  }

  // ---- round trip through parse_test_folder

  predicate KnownTest(short: string) {
    short == "SOLO" || short == "DMA" || short == "DMA_FPGA"
  }

  /** The name of a known experiment. */
  function NameOf(g: Groups, cpus: nat): string {
    ConfigName("TEST_TYPE_" + g.testType, g.snoop, g.channels, g.coherency, cpus)
  }

  predicate Printable(g: Groups) {
    KnownTest(g.testType) && (g.snoop == 1 || g.snoop == 2) && g.coherency <= 1
  }

  lemma OneDigit(n: nat)
    requires n < 10
    ensures Decimal(n) == [('0' as nat + n) as char] && DigitValue(Decimal(n)[0]) == n
  {
  }

  /** The tail of a printed name matches, and yields the printed numbers, whatever follows. */
  lemma TailMatches(snoop: nat, channels: nat, coherency: nat, cpus: nat, suffix: string)
    requires (snoop == 1 || snoop == 2) && coherency <= 1
    ensures MatchTail(Tail(snoop, channels, coherency, cpus) + suffix) == Some((snoop, channels, coherency))
  {
    OneDigit(snoop);
    OneDigit(coherency);
    var a, d, b, e := Decimal(snoop), Decimal(channels), Decimal(coherency), Decimal(cpus);
    TailRegroup(a, d, b, e, suffix);
    DecimalRoundTrip(channels);
    PiecesMatch(a, d, b, e + suffix);
  }

  lemma TailRegroup(a: string, d: string, b: string, e: string, suffix: string)
    ensures "_snoop" + a + ("_ch" + d + ("_coh" + b + ("_C" + e))) + suffix ==
            "_snoop" + (a + ("_ch" + (d + ("_coh" + (b + ("_C" + (e + suffix)))))))
  {
    var r4 := "_C" + e;
    var r3 := "_coh" + b + r4;
    var r2 := "_ch" + d + r3;
    Assoc("_C", e, suffix);
    Assoc("_coh" + b, r4, suffix);
    Assoc("_coh", b, r4 + suffix);
    Assoc("_ch" + d, r3, suffix);
    Assoc("_ch", d, r3 + suffix);
    Assoc("_snoop" + a, r2, suffix);
    Assoc("_snoop", a, r2 + suffix);
  }

  /** `tag + rest` starts with the tag, and the rest follows. */
  lemma Peel(tag: string, rest: string)
    ensures StartsAt(tag + rest, 0, tag) && (tag + rest)[|tag|..] == rest
  {
    assert (tag + rest)[..|tag|] == tag;
  }

  lemma PeelAt(a: string, tag: string, rest: string)
    ensures StartsAt(a + (tag + rest), |a|, tag) && (a + (tag + rest))[|a| + |tag|..] == rest
    ensures (a + (tag + rest))[..|a|] == a
  {
    var s := a + (tag + rest);
    assert s[|a|..|a| + |tag|] == tag;
  }

  lemma CoherencyMatches(b: string, last: string)
    requires |b| == 1 && (b[0] == '0' || b[0] == '1') && last != "" && IsDigit(last[0])
    ensures MatchCoherency(b + ("_C" + last)) == Some(DigitValue(b[0]))
  {
    PeelAt(b, "_C", last);
    assert (b + ("_C" + last))[0] == b[0];
  }

  lemma ChannelsMatch(d: string, b: string, last: string)
    requires d != "" && AllDigits(d)
    requires |b| == 1 && (b[0] == '0' || b[0] == '1') && last != "" && IsDigit(last[0])
    ensures MatchChannels(d + ("_coh" + (b + ("_C" + last)))) == Some((ParseDecimal(d), DigitValue(b[0])))
  {
    var rest := b + ("_C" + last);
    CoherencyMatches(b, last);
    DigitRunAppend(d, "_coh" + rest);
    PeelAt(d, "_coh", rest);
  }

  lemma PiecesMatch(a: string, d: string, b: string, last: string)
    requires |a| == 1 && (a[0] == '1' || a[0] == '2') && |b| == 1 && (b[0] == '0' || b[0] == '1')
    requires d != "" && AllDigits(d) && last != "" && IsDigit(last[0])
    ensures MatchTail("_snoop" + (a + ("_ch" + (d + ("_coh" + (b + ("_C" + last))))))) ==
            Some((DigitValue(a[0]), ParseDecimal(d), DigitValue(b[0])))
  {
    var s1 := d + ("_coh" + (b + ("_C" + last)));
    ChannelsMatch(d, b, last);
    SnoopPeels(a, s1);
  }

  lemma SnoopPeels(a: string, s1: string)
    requires |a| == 1
    ensures var s := "_snoop" + (a + ("_ch" + s1));
            StartsAt(s, 0, "_snoop") && |s| >= 10 && s[6] == a[0] && StartsAt(s, 7, "_ch") && s[10..] == s1
  {
    var t := "_ch" + s1;
    Peel("_snoop", a + t);
    assert ("_snoop" + (a + t))[6] == (a + t)[0] == a[0];
    PeelAt("_snoop" + a, "_ch", s1);
    Assoc("_snoop", a, t);
  }

  lemma StartsAtChar(s: string, i: nat, sub: string, k: nat)
    requires k < |sub|
    ensures StartsAt(s, i, sub) ==> s[i + k] == sub[k]
  {
    if StartsAt(s, i, sub) { assert s[i..i + |sub|][k] == s[i + k]; }
  }

  /** A text that differs from `other` at some position does not start with it. */
  lemma DiffersAt(s: string, other: string, i: nat)
    requires i < |s| && i < |other| && s[i] != other[i]
    ensures !StartsAt(s, 0, other)
  {
    StartsAtChar(s, 0, other, i);
  }

  lemma ShorterAlternative(s: string, rest: string)
    requires s == "DMA_FPGA" + rest
    ensures MatchAlternative(s, "DMA").None?
  {
    assert s[3..][1] == s[4] == 'F';
  }

  lemma OtherAlternatives(short: string, other: string, rest: string)
    requires KnownTest(short) && KnownTest(other) && short != other
    requires rest != "" && rest[0] == '_' && |rest| > 1 && rest[1] == 's'
    ensures MatchAlternative(short + rest, other).None?
  {
    var s := short + rest;
    if short == "DMA_FPGA" && other == "DMA" {
      ShorterAlternative(s, rest);
    } else if short == "DMA" && other == "DMA_FPGA" {
      assert s[4] == rest[1];
      DiffersAt(s, other, 4);
    } else {
      assert s[0] == short[0];
      DiffersAt(s, other, 0);
    }
  }

  lemma AlternativeMatches(short: string, tail: string)
    requires MatchTail(tail).Some?
    ensures var t := MatchTail(tail).value; MatchAlternative(short + tail, short) == Some(Groups(short, t.0, t.1, t.2))
  {
    assert (short + tail)[..|short|] == short && (short + tail)[|short|..] == tail;
  }

  lemma HeadFirst(rest: string)
    ensures StartsAt(HEAD + rest, 0, HEAD) && (HEAD + rest)[|HEAD|..] == rest
  {
    assert (HEAD + rest)[..|HEAD|] == HEAD;
  }

  /** A printed name is the head followed by the short test type and the tail. */
  lemma NameShape(g: Groups, cpus: nat, suffix: string)
    ensures NameOf(g, cpus) + suffix == HEAD + (g.testType + (Tail(g.snoop, g.channels, g.coherency, cpus) + suffix))
  {
    var tail := Tail(g.snoop, g.channels, g.coherency, cpus);
    var a, b := "baremetal_cci_", "TEST_TYPE_";
    assert HEAD == a + b;
    NameRegroup(a, b, g.testType, tail, suffix);
  }

  lemma NameRegroup(a: string, b: string, tt: string, tail: string, suffix: string)
    ensures a + (b + tt) + tail + suffix == a + b + (tt + (tail + suffix))
  {
    Assoc(a, b, tt);
    Assoc(a + b + tt, tail, suffix);
    Assoc(a + b, tt, tail + suffix);
  }

  lemma NameMatches(g: Groups, cpus: nat, suffix: string)
    requires Printable(g)
    ensures MatchHere(NameOf(g, cpus) + suffix) == Some(g)
  {
    var tail := Tail(g.snoop, g.channels, g.coherency, cpus) + suffix;
    NameShape(g, cpus, suffix);
    HeadFirst(g.testType + tail);
    TailMatches(g.snoop, g.channels, g.coherency, cpus, suffix);
    TailStart(g.snoop, g.channels, g.coherency, cpus, suffix);
    AlternativeChosen(g.testType, tail);
  }

  lemma TailStart(snoop: nat, channels: nat, coherency: nat, cpus: nat, suffix: string)
    ensures var t := Tail(snoop, channels, coherency, cpus) + suffix; |t| > 1 && t[0] == '_' && t[1] == 's'
  {
  }

  lemma AlternativeChosen(short: string, tail: string)
    requires KnownTest(short) && MatchTail(tail).Some? && |tail| > 1 && tail[0] == '_' && tail[1] == 's'
    ensures var rest := short + tail;
            var solo, dma := MatchAlternative(rest, "SOLO"), MatchAlternative(rest, "DMA");
            var t := MatchTail(tail).value;
            (if solo.Some? then solo else if dma.Some? then dma else MatchAlternative(rest, "DMA_FPGA"))
            == Some(Groups(short, t.0, t.1, t.2))
  {
    AlternativeMatches(short, tail);
    if short != "SOLO" { OtherAlternatives(short, "SOLO", tail); }
    if short != "DMA" { OtherAlternatives(short, "DMA", tail); }
  }

  lemma HeadLetters(i: nat)
    requires 0 < i < |HEAD|
    ensures HEAD[i] != 'b'
  {
  }

  lemma NoStraddle(prefix: string, name: string)
    requires prefix != "" && !StartsAt(prefix, 0, HEAD)
    requires name != "" && name[0] == 'b'
    ensures !StartsAt(prefix + name, 0, HEAD)
  {
    var s := prefix + name;
    if |HEAD| <= |prefix| {
      assert s[0..|HEAD|] == prefix[0..|HEAD|];
    } else {
      HeadLetters(|prefix|);
      assert s[|prefix|] == 'b';
      assert |HEAD| <= |s| ==> s[0..|HEAD|][|prefix|] == 'b';
    }
  }

  lemma ContainsShorter(s: string, sub: string)
    requires s != "" && !Contains(s, sub)
    ensures !Contains(s[1..], sub) && !StartsAt(s, 0, sub)
  {
    forall i | 0 <= i <= |s| - 1 ensures StartsAt(s[1..], i, sub) ==> StartsAt(s, i + 1, sub) {
      if i + |sub| <= |s| - 1 { assert s[1..][i..i + |sub|] == s[i + 1..i + 1 + |sub|]; }
    }
  }

  /** A prefix without the head of a name is skipped by the search. */
  lemma {:induction false} SkipPrefix(prefix: string, name: string)
    requires !Contains(prefix, HEAD)
    requires |name| >= |HEAD| && name[..|HEAD|] == HEAD
    ensures Search(prefix + name) == Search(name)
  {
    if prefix == "" {
      assert prefix + name == name;
    } else {
      var s := prefix + name;
      assert s[1..] == prefix[1..] + name;
      NoStraddle(prefix, name);
      ContainsShorter(prefix, HEAD);
      SkipPrefix(prefix[1..], name);
    }
  }

  function Expected(g: Groups): TestInfo {
    TestInfo(
      match g.testType case "SOLO" => "solo" case "DMA" => "dma_interf" case _ => "dma+fpga_interf",
      if g.snoop == 1 then "read" else "write", g.channels,
      if g.coherency == 1 then "coherent" else "non_coherent", g.snoop)
  }

  /** Each field of the result says one thing of the experiment. */
  predicate Tells(r: TestInfo, g: Groups) {
    && (r.interference == "solo" <==> g.testType == "SOLO")
    && (r.interference == "dma_interf" <==> g.testType == "DMA")
    && (r.interference == "dma+fpga_interf" <==> g.testType == "DMA_FPGA")
    && r.snoopId == g.snoop && r.channels == g.channels
    && (r.snoopType == "read" <==> g.snoop == 1) && (r.snoopType == "write" <==> g.snoop == 2)
    && (r.coherency == "coherent" <==> g.coherency == 1) && (r.coherency == "non_coherent" <==> g.coherency == 0)
  }

  lemma ExpectedTells(g: Groups)
    requires Printable(g)
    ensures Tells(Expected(g), g)
  {
    assert |"solo"| == 4 && |"dma_interf"| == 10 && |"dma+fpga_interf"| == 15;
    assert "read"[0] != "write"[0] && "coherent"[0] != "non_coherent"[0];
  }

  /** First parser: a printed name, behind any prefix that does not itself contain the head of a name and
      before any suffix, is parsed back to the experiment it was printed for. */
  lemma TestFolderRoundTrip(g: Groups, cpus: nat, prefix: string, suffix: string)
    requires Printable(g) && !Contains(prefix, HEAD)
    ensures ParseTestFolder(prefix + NameOf(g, cpus) + suffix) == Ok(Expected(g))
    ensures Tells(ParseTestFolder(prefix + NameOf(g, cpus) + suffix).value, g)
  {
    var name := NameOf(g, cpus) + suffix;
    NameMatches(g, cpus, suffix);
    Assoc(prefix, NameOf(g, cpus), suffix);
    var rest := g.testType + (Tail(g.snoop, g.channels, g.coherency, cpus) + suffix);
    NameShape(g, cpus, suffix);
    HeadFirst(rest);
    SkipPrefix(prefix, name);
    SearchHere(name, g);
    GroupsToInfo(prefix + name, g);
    ExpectedTells(g);
  }

  lemma SearchHere(name: string, g: Groups)
    requires MatchHere(name) == Some(g)
    ensures Search(name) == Some(g)
  {
  }

  lemma GroupsToInfo(folder: string, g: Groups)
    requires Search(folder) == Some(g) && Printable(g)
    ensures ParseTestFolder(folder) == Ok(Expected(g))
  {
  }

  // ---- names the first parser refuses

  lemma DigitsOf(n: nat, d: string)
    requires d == Decimal(n)
    ensures |d| == 1 <==> n < 10
    ensures n < 10 ==> d[0] == ('0' as nat + n) as char
  {
  }

  /** A field of one digit, read with the separator that must follow it. */
  lemma WideField(n: nat, d: string, sep: string, rest: string)
    requires d == Decimal(n) && sep != "" && !IsDigit(sep[0])
    ensures var s := d + (sep + rest); StartsAt(s, 1, sep) <==> n < 10
  {
    var s := d + (sep + rest);
    DigitsOf(n, d);
    if n < 10 {
      PeelAt(d, sep, rest);
    } else {
      assert s[1] == d[1];
    }
  }

  lemma CoherencyRefused(n: nat, b: string, last: string)
    requires n > 1 && b == Decimal(n)
    ensures MatchCoherency(b + ("_C" + last)).None?
  {
    DigitsOf(n, b);
    WideField(n, b, "_C", last);
    assert (b + ("_C" + last))[0] == b[0];
  }

  lemma ChannelsRefused(d: string, n: nat, b: string, last: string)
    requires d != "" && AllDigits(d) && n > 1 && b == Decimal(n)
    ensures MatchChannels(d + ("_coh" + (b + ("_C" + last)))).None?
  {
    var rest := b + ("_C" + last);
    CoherencyRefused(n, b, last);
    DigitRunAppend(d, "_coh" + rest);
    PeelAt(d, "_coh", rest);
  }

  lemma SnoopRefused(n: nat, a: string, rest: string)
    requires n != 1 && n != 2 && a == Decimal(n)
    ensures MatchTail("_snoop" + (a + ("_ch" + rest))).None?
  {
    var t := a + ("_ch" + rest);
    var s := "_snoop" + t;
    DigitsOf(n, a);
    WideField(n, a, "_ch", rest);
    assert s[6] == t[0] == a[0];
    if StartsAt(s, 7, "_ch") { assert s[7..10] == t[1..4]; }
  }

  lemma TailRefused(snoop: nat, channels: nat, coherency: nat, cpus: nat)
    requires !((snoop == 1 || snoop == 2) && coherency <= 1)
    ensures MatchTail(Tail(snoop, channels, coherency, cpus)).None?
  {
    var a, d, b, e := Decimal(snoop), Decimal(channels), Decimal(coherency), Decimal(cpus);
    var rest := d + ("_coh" + (b + ("_C" + e)));
    TailRegroup(a, d, b, e, "");
    assert Tail(snoop, channels, coherency, cpus) + "" == Tail(snoop, channels, coherency, cpus);
    assert e + "" == e;
    if snoop == 1 || snoop == 2 {
      OneDigit(snoop);
      SnoopPeels(a, rest);
      ChannelsRefused(d, coherency, b, e);
    } else {
      SnoopRefused(snoop, a, rest);
    }
  }

  lemma AlternativesRefused(short: string, tail: string)
    requires KnownTest(short) && MatchTail(tail).None? && |tail| > 1 && tail[0] == '_' && tail[1] == 's'
    ensures MatchHere(HEAD + (short + tail)).None?
  {
    HeadFirst(short + tail);
    Peel(short, tail);
    if short != "SOLO" { OtherAlternatives(short, "SOLO", tail); }
    if short != "DMA" { OtherAlternatives(short, "DMA", tail); }
    if short != "DMA_FPGA" { OtherAlternatives(short, "DMA_FPGA", tail); }
  }

  predicate Without(s: string, c: char) {
    forall i | 0 <= i < |s| :: s[i] != c
  }

  /** The head of a name cannot start where there is no `b`. */
  lemma {:induction false} NoHeadLater(s: string)
    requires Without(s, 'b')
    ensures Search(s).None?
  {
    if s != "" {
      DiffersAt(s, HEAD, 0);
      NoHeadLater(s[1..]);
    }
  }

  lemma TailWithout(snoop: nat, channels: nat, coherency: nat, cpus: nat)
    ensures Without(Tail(snoop, channels, coherency, cpus), 'b')
  {
    var a, d, b, e := Decimal(snoop), Decimal(channels), Decimal(coherency), Decimal(cpus);
    assert Without(a, 'b') && Without(d, 'b') && Without(b, 'b') && Without(e, 'b');
    var r4 := "_C" + e;
    var r3 := "_coh" + b + r4;
    var r2 := "_ch" + d + r3;
    assert Without(r4, 'b') && Without(r3, 'b') && Without(r2, 'b');
  }

  lemma OnlyFirst(name: string, rest: string)
    requires name == HEAD + rest && Without(rest, 'b')
    ensures Search(name) == MatchHere(name)
  {
    forall i | 0 <= i < |name| - 1 ensures name[1..][i] != 'b' {
      if i + 1 < |HEAD| { HeadLetters(i + 1); } else { assert name[i + 1] == rest[i + 1 - |HEAD|]; }
    }
    NoHeadLater(name[1..]);
  }

  lemma NameRefused(g: Groups, cpus: nat)
    requires KnownTest(g.testType) && !Printable(g)
    ensures Search(NameOf(g, cpus)).None?
  {
    var tail := Tail(g.snoop, g.channels, g.coherency, cpus);
    assert NameOf(g, cpus) + "" == NameOf(g, cpus) && tail + "" == tail;
    NameShape(g, cpus, "");
    TailRefused(g.snoop, g.channels, g.coherency, cpus);
    TailStart(g.snoop, g.channels, g.coherency, cpus, "");
    AlternativesRefused(g.testType, tail);
    TailWithout(g.snoop, g.channels, g.coherency, cpus);
    OnlyFirst(NameOf(g, cpus), g.testType + tail);
  }

  lemma NameHasHead(g: Groups, cpus: nat)
    ensures |NameOf(g, cpus)| >= |HEAD| && NameOf(g, cpus)[..|HEAD|] == HEAD
  {
    var rest := g.testType + (Tail(g.snoop, g.channels, g.coherency, cpus) + "");
    NameShape(g, cpus, "");
    assert NameOf(g, cpus) + "" == NameOf(g, cpus);
    HeadFirst(rest);
  }

  /** Exactly which printed names of known test types the first parser accepts, behind a clean prefix: the
      enumeration may print others, whose snoop or coherency the expression has no digit for. */
  lemma TestFolderAcceptsIff(g: Groups, cpus: nat, prefix: string)
    requires KnownTest(g.testType) && !Contains(prefix, HEAD)
    ensures ParseTestFolder(prefix + NameOf(g, cpus)).Ok? <==> Printable(g)
  {
    var name := NameOf(g, cpus);
    if Printable(g) {
      TestFolderRoundTrip(g, cpus, prefix, "");
      assert prefix + name + "" == prefix + name;
    } else {
      NameRefused(g, cpus);
      NameHasHead(g, cpus);
      SkipPrefix(prefix, name);
    }
  }
}
