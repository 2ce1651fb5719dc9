/** The second reader of experiment names (hist_macro.py, `parse_folder_name`): three independent tag
    searches and a substring test, on names that may carry the prefix of a macro-benchmark folder. */
module FolderNames {
  import opened Wrappers
  import opened Strings
  import opened CciNames

  // ---- finding a tag

  /** `p` is never directly followed by `q` in `w`. */
  predicate NoPair(w: string, p: char, q: char) {
    forall i | 0 <= i < |w| - 1 :: !(w[i] == p && w[i + 1] == q)
  }

  lemma NoPairConcat(a: string, b: string, p: char, q: char)
    requires NoPair(a, p, q) && NoPair(b, p, q)
    requires a == "" || b == "" || a[|a| - 1] != p || b[0] != q
    ensures NoPair(a + b, p, q)
  {
    forall i | 0 <= i < |a + b| - 1 ensures !((a + b)[i] == p && (a + b)[i + 1] == q) {
      if i < |a| - 1 {
        assert !(a[i] == p && a[i + 1] == q);
      } else if i >= |a| {
        assert !(b[i - |a|] == p && b[i - |a| + 1] == q);
      }
    }
  }

  lemma {:induction false} SkipTag(s: string, tag: string, i: nat, j: nat)
    requires i <= j <= |s|
    requires forall k | i <= k < j :: !TagAt(s, tag, k)
    ensures TagNumber(s, tag, i) == TagNumber(s, tag, j)
    decreases j - i
  {
    if i < j { SkipTag(s, tag, i + 1, j); }
  }

  lemma TagHere(a: string, tag: string, n: nat, d: string, rest: string)
    requires d == Decimal(n) && (rest == "" || !IsDigit(rest[0]))
    ensures TagNumber(a + (tag + (d + rest)), tag, |a|) == Some(n)
  {
    var s := a + (tag + (d + rest));
    assert s[|a|..|a| + |tag|] == tag;
    assert s[|a| + |tag|..] == d + rest;
    assert s[|a| + |tag|] == d[0];
    DigitRunAppend(d, rest);
    DecimalRoundTrip(n);
    assert (d + rest)[..|d|] == d;
  }

  ghost predicate TagFree(prefix: string, tag: string) {
    forall i | 0 <= i <= |prefix| :: !TagAt(prefix, tag, i)
  }

  /** A tag cannot begin in the prefix when the name after it starts with a letter foreign to the tag. */
  lemma NotInPrefix(prefix: string, x: string, tag: string, i: nat)
    requires TagFree(prefix, tag) && i < |prefix|
    requires x != "" && x[0] == 'b' && forall k | 0 <= k < |tag| :: tag[k] != 'b'
    ensures !TagAt(prefix + x, tag, i)
  {
    var s := prefix + x;
    if i + |tag| < |prefix| {
      assert s[i..i + |tag|] == prefix[i..i + |tag|];
      assert !TagAt(prefix, tag, i);
    } else {
      assert s[|prefix|] == 'b';
      var k := |prefix| - i;
      assert i + |tag| <= |s| && k < |tag| ==> s[i..i + |tag|][k] == 'b';
    }
  }

  lemma NotInText(prefix: string, w: string, after: string, tag: string, i: nat)
    requires |tag| >= 2 && i < |w| && NoPair(w, tag[0], tag[1]) && w[|w| - 1] != tag[0]
    ensures !TagAt(prefix + (w + after), tag, |prefix| + i)
  {
    var s, k := prefix + (w + after), |prefix| + i;
    assert s[k] == w[i];
    assert i < |w| - 1 ==> s[k + 1] == w[i + 1];
    assert k + |tag| <= |s| ==> s[k..k + |tag|][0] == s[k] && s[k..k + |tag|][1] == s[k + 1];
  }

  lemma NotBefore(prefix: string, w: string, after: string, tag: string)
    requires |tag| >= 2 && TagFree(prefix, tag) && forall k | 0 <= k < |tag| :: tag[k] != 'b'
    requires w != "" && w[0] == 'b' && NoPair(w, tag[0], tag[1]) && w[|w| - 1] != tag[0]
    ensures forall k | 0 <= k < |prefix| + |w| :: !TagAt(prefix + (w + after), tag, k)
  {
    forall k | 0 <= k < |prefix| + |w| ensures !TagAt(prefix + (w + after), tag, k) {
      if k < |prefix| {
        NotInPrefix(prefix, w + after, tag, k);
      } else {
        NotInText(prefix, w, after, tag, k - |prefix|);
      }
    }
  }

  /** The search finds the number printed after `w`, when nothing before looks like the tag. */
  lemma TagFound(prefix: string, w: string, tag: string, n: nat, d: string, rest: string)
    requires |tag| >= 2 && forall k | 0 <= k < |tag| :: tag[k] != 'b'
    requires TagFree(prefix, tag)
    requires w != "" && w[0] == 'b' && NoPair(w, tag[0], tag[1]) && w[|w| - 1] != tag[0]
    requires d == Decimal(n) && (rest == "" || !IsDigit(rest[0]))
    ensures TagNumber(prefix + (w + (tag + (d + rest))), tag, 0) == Some(n)
  {
    var after := tag + (d + rest);
    NotBefore(prefix, w, after, tag);
    SkipTag(prefix + (w + after), tag, 0, |prefix| + |w|);
    Assoc(prefix, w, after);
    TagHere(prefix + w, tag, n, d, rest);
  }

  // ---- the fixed part of a name

  function Stem(short: string): string {
    HEAD + short
  }

  lemma StemFacts(short: string)
    requires KnownTest(short)
    ensures var u := Stem(short);
            && u != "" && u[0] == 'b'
            && NoPair(u, 's', 'n') && NoPair(u, 'c', 'h') && NoPair(u, 'c', 'o')
            && (u[|u| - 1] == 'O' || u[|u| - 1] == 'A')
  {
    var u := Stem(short);
    HeadPairs();
    assert NoPair(short, 's', 'n') && NoPair(short, 'c', 'h') && NoPair(short, 'c', 'o');
    assert HEAD[|HEAD| - 1] == '_';
    NoPairConcat(HEAD, short, 's', 'n');
    NoPairConcat(HEAD, short, 'c', 'h');
    NoPairConcat(HEAD, short, 'c', 'o');
    assert u[|u| - 1] == short[|short| - 1];
  }

  lemma HeadPairs()
    ensures NoPair(HEAD, 's', 'n') && NoPair(HEAD, 'c', 'h') && NoPair(HEAD, 'c', 'o')
  {
  }

  lemma DigitsHaveNoPair(d: string, p: char, q: char)
    requires AllDigits(d) && !IsDigit(p)
    ensures NoPair(d, p, q) && (d != "" ==> d[|d| - 1] != p)
  {
  }

  /** The text of a name before each of its three tags. */
  lemma BeforeTags(short: string, d1: string, d2: string)
    requires KnownTest(short) && d1 != "" && AllDigits(d1) && d2 != "" && AllDigits(d2)
    ensures NoPair(Stem(short) + "_", 's', 'n')
    ensures NoPair(Stem(short) + "_snoop" + d1 + "_", 'c', 'h')
    ensures NoPair(Stem(short) + "_snoop" + d1 + "_ch" + d2 + "_", 'c', 'o')
  {
    var u := Stem(short);
    StemFacts(short);
    NoPairConcat(u, "_", 's', 'n');
    DigitsHaveNoPair(d1, 'c', 'h');
    DigitsHaveNoPair(d1, 'c', 'o');
    DigitsHaveNoPair(d2, 'c', 'o');
    NoPairConcat(u, "_snoop", 'c', 'h');
    NoPairConcat(u + "_snoop", d1, 'c', 'h');
    NoPairConcat(u + "_snoop" + d1, "_", 'c', 'h');
    NoPairConcat(u, "_snoop", 'c', 'o');
    NoPairConcat(u + "_snoop", d1, 'c', 'o');
    NoPairConcat(u + "_snoop" + d1, "_ch", 'c', 'o');
    NoPairConcat(u + "_snoop" + d1 + "_ch", d2, 'c', 'o');
    NoPairConcat(u + "_snoop" + d1 + "_ch" + d2, "_", 'c', 'o');
  }

  // ---- the three numbers

  lemma SplitTag(x: string, sepTag: string, tag: string, d: string, r: string)
    requires sepTag == "_" + tag
    ensures x + (sepTag + d + r) == (x + "_") + (tag + (d + r))
    ensures x + (sepTag + d + r) == (x + sepTag + d) + r
  {
    Assoc(sepTag, d, r);
    Assoc(x, sepTag, d + r);
    Assoc(x, "_", tag);
    Assoc(x + "_", tag, d + r);
    Assoc(x + sepTag, d, r);
  }

  /** All three searches find the printed numbers. */
  lemma NumbersFound(prefix: string, short: string, snoop: nat, channels: nat, coherency: nat, d1: string, d2: string,
                     d3: string, d4: string)
    requires KnownTest(short) && TagFree(prefix, "snoop") && TagFree(prefix, "ch") && TagFree(prefix, "coh")
    requires d1 == Decimal(snoop) && d2 == Decimal(channels) && d3 == Decimal(coherency)
    ensures var s := prefix + (Stem(short) + ("_snoop" + d1 + ("_ch" + d2 + ("_coh" + d3 + ("_C" + d4)))));
            && TagNumber(s, "snoop", 0) == Some(snoop)
            && TagNumber(s, "ch", 0) == Some(channels)
            && TagNumber(s, "coh", 0) == Some(coherency)
  {
    var u := Stem(short);
    var r3 := "_C" + d4;
    var r2 := "_coh" + d3 + r3;
    var r1 := "_ch" + d2 + r2;
    StemFacts(short);
    BeforeTags(short, d1, d2);
    var x1 := u + "_snoop" + d1;
    var x2 := x1 + "_ch" + d2;
    SplitTag(u, "_snoop", "snoop", d1, r1);
    SplitTag(x1, "_ch", "ch", d2, r2);
    SplitTag(x2, "_coh", "coh", d3, r3);
    assert r1[0] == '_' && r2[0] == '_' && r3[0] == '_';
    assert x1[0] == u[0] && x2[0] == u[0];
    TagFound(prefix, u + "_", "snoop", snoop, d1, r1);
    TagFound(prefix, x1 + "_", "ch", channels, d2, r2);
    TagFound(prefix, x2 + "_", "coh", coherency, d3, r3);
  }

  // ---- the test type

  lemma Missing(prefix: string, x: string, sub: string, k: nat)
    requires !Contains(prefix, sub)
    requires x != "" && x[0] == 'b' && forall i | 0 <= i < |sub| :: sub[i] != 'b'
    requires k < |sub| && sub[k] !in x
    ensures !Contains(prefix + x, sub)
  {
    var s := prefix + x;
    forall i | 0 <= i <= |s| ensures !StartsAt(s, i, sub) {
      if i + |sub| <= |prefix| {
        assert s[i..i + |sub|] == prefix[i..i + |sub|];
        assert !StartsAt(prefix, i, sub);
      } else if i + |sub| <= |s| {
        if i < |prefix| {
          assert s[i..i + |sub|][|prefix| - i] == x[0];
        } else {
          assert s[i..i + |sub|][k] == x[i - |prefix| + k];
        }
      }
    }
  }

  lemma Present(a: string, sub: string, b: string)
    ensures Contains(a + (sub + b), sub)
  {
    var s := a + (sub + b);
    assert s[|a|..|a| + |sub|] == sub;
    assert StartsAt(s, |a|, sub);
  }

  lemma TailLetters(snoop: nat, channels: nat, coherency: nat, cpus: nat)
    ensures 'D' !in Tail(snoop, channels, coherency, cpus) && 'F' !in Tail(snoop, channels, coherency, cpus)
  {
    var d1, d2, d3, d4 := Decimal(snoop), Decimal(channels), Decimal(coherency), Decimal(cpus);
    assert forall c | c in "_snoop" || c in "_ch" || c in "_coh" || c in "_C" :: c != 'D' && c != 'F';
    assert forall c | c in d1 || c in d2 || c in d3 || c in d4 :: IsDigit(c);
  }

  lemma StemLetters()
    ensures 'D' !in Stem("SOLO") && 'F' !in Stem("DMA")
  {
  }

  ghost predicate Clean(prefix: string) {
    && !Contains(prefix, "TEST_TYPE_DMA") && !Contains(prefix, "TEST_TYPE_DMA_FPGA")
    && TagFree(prefix, "snoop") && TagFree(prefix, "ch") && TagFree(prefix, "coh")
  }

  /** The test type as it is printed. */
  function FullType(short: string): string {
    if short == "SOLO" then "TEST_TYPE_SOLO" else if short == "DMA" then "TEST_TYPE_DMA" else "TEST_TYPE_DMA_FPGA"
  }

  lemma TypePresent(prefix: string, short: string, tail: string)
    requires KnownTest(short)
    ensures Contains(prefix + (Stem(short) + tail), FullType(short))
  {
    var a, t := "baremetal_cci_", "TEST_TYPE_" + short;
    assert HEAD == a + "TEST_TYPE_";
    assert t == FullType(short);
    Assoc(a, "TEST_TYPE_", short);
    Assoc(a, t, tail);
    Assoc(prefix, a, t + tail);
    Present(prefix + a, t, tail);
  }

  lemma NoDma(prefix: string, tail: string)
    requires Clean(prefix) && 'D' !in tail
    ensures var s := prefix + (Stem("SOLO") + tail); !Contains(s, "TEST_TYPE_DMA_FPGA") && !Contains(s, "TEST_TYPE_DMA")
  {
    StemFacts("SOLO");
    StemLetters();
    Missing(prefix, Stem("SOLO") + tail, "TEST_TYPE_DMA", 10);
    Missing(prefix, Stem("SOLO") + tail, "TEST_TYPE_DMA_FPGA", 10);
  }

  lemma NoFpga(prefix: string, tail: string)
    requires Clean(prefix) && 'F' !in tail
    ensures !Contains(prefix + (Stem("DMA") + tail), "TEST_TYPE_DMA_FPGA")
  {
    StemFacts("DMA");
    StemLetters();
    Missing(prefix, Stem("DMA") + tail, "TEST_TYPE_DMA_FPGA", 14);
  }

  lemma TestTypeFound(prefix: string, short: string, tail: string)
    requires KnownTest(short) && Clean(prefix) && 'D' !in tail && 'F' !in tail
    ensures var s := prefix + (Stem(short) + tail);
            short == (if Contains(s, "TEST_TYPE_DMA_FPGA") then "DMA_FPGA"
                      else if Contains(s, "TEST_TYPE_DMA") then "DMA" else "SOLO")
    ensures short == "SOLO" ==> Contains(prefix + (Stem(short) + tail), "TEST_TYPE_SOLO")
  {
    TypePresent(prefix, short, tail);
    if short == "SOLO" { NoDma(prefix, tail); }
    if short == "DMA" { NoFpga(prefix, tail); }
  }

  // ---- round trip

  /** Second parser: behind any prefix that holds neither a DMA test type nor a tag with a number, a
      printed name is read back to its test type and its three numbers, whatever their size. */
  lemma FolderNameRoundTrip(g: Groups, cpus: nat, prefix: string)
    requires KnownTest(g.testType) && Clean(prefix)
    ensures ParseFolderName(prefix + NameOf(g, cpus)) == Some(FolderMeta(g.testType, g.snoop, g.channels, g.coherency))
  {
    var tail := Tail(g.snoop, g.channels, g.coherency, cpus);
    NameIsStem(g, cpus);
    TailLetters(g.snoop, g.channels, g.coherency, cpus);
    TestTypeFound(prefix, g.testType, tail);
    var d1, d2, d3, d4 := Decimal(g.snoop), Decimal(g.channels), Decimal(g.coherency), Decimal(cpus);
    NumbersFound(prefix, g.testType, g.snoop, g.channels, g.coherency, d1, d2, d3, d4);
    assert tail == "_snoop" + d1 + ("_ch" + d2 + ("_coh" + d3 + ("_C" + d4)));
  }

  lemma NameIsStem(g: Groups, cpus: nat)
    ensures NameOf(g, cpus) == Stem(g.testType) + Tail(g.snoop, g.channels, g.coherency, cpus)
  {
    NameShape(g, cpus, "");
    var tail := Tail(g.snoop, g.channels, g.coherency, cpus);
    assert tail + "" == tail && NameOf(g, cpus) + "" == NameOf(g, cpus);
    Assoc(HEAD, g.testType, tail);
  }

  const MACRO_PREFIX := "linux_cci_macrobenchmark_"

  lemma NoLetterNoSub(prefix: string, sub: string, k: nat)
    requires k < |sub| && sub[k] !in prefix
    ensures !Contains(prefix, sub)
  {
    forall i | 0 <= i <= |prefix| ensures !StartsAt(prefix, i, sub) {
      if i + |sub| <= |prefix| { assert prefix[i..i + |sub|][k] == prefix[i + k]; }
    }
  }

  /** The prefixes the framework really uses, none at all and the one of the macro-benchmarks, suit both
      parsers; so for every printable experiment the two readers agree with the printer and each other. */
  lemma BothParsersAgree(g: Groups, cpus: nat, prefix: string)
    requires Printable(g) && (prefix == "" || prefix == MACRO_PREFIX)
    ensures ParseTestFolder(prefix + NameOf(g, cpus)) == Ok(Expected(g))
    ensures ParseFolderName(prefix + NameOf(g, cpus)) == Some(FolderMeta(g.testType, g.snoop, g.channels, g.coherency))
  {
    PrefixLetters(prefix);
    assert HEAD[14] == 'T';
    NoLetterNoSub(prefix, HEAD, 14);
    NoLetterNoSub(prefix, "TEST_TYPE_DMA", 0);
    NoLetterNoSub(prefix, "TEST_TYPE_DMA_FPGA", 0);
    FolderNameRoundTrip(g, cpus, prefix);
    TestFolderRoundTrip(g, cpus, prefix, "");
    assert prefix + NameOf(g, cpus) + "" == prefix + NameOf(g, cpus);
  }

  lemma PrefixLetters(prefix: string)
    requires prefix == "" || prefix == MACRO_PREFIX
    ensures 'T' !in prefix && forall i | 0 <= i < |prefix| :: !IsDigit(prefix[i])
  {
  }

  ghost predicate HasTag(s: string, tag: string) {
    exists k: nat :: k <= |s| && TagAt(s, tag, k)
  }

  ghost predicate IsFirstTag(s: string, tag: string, i: nat, k: nat) {
    i <= k <= |s| && TagAt(s, tag, k) && forall j | i <= j < k :: !TagAt(s, tag, j)
  }

  /** The run of digits behind the tag at position `k`. */
  function NumberBehind(s: string, tag: string, k: nat): nat
    requires k + |tag| <= |s|
  {
    var digits := s[k + |tag|..];
    ParseDecimal(digits[..DigitRun(digits)])
  }

  lemma {:induction false} TagMissing(s: string, tag: string, i: nat)
    requires i <= |s| && TagNumber(s, tag, i).None?
    ensures forall k | i <= k <= |s| :: !TagAt(s, tag, k)
    decreases |s| - i
  {
    if i < |s| { TagMissing(s, tag, i + 1); }
  }

  /** The number of a tag is the run of digits behind its first occurrence with a digit. */
  lemma {:induction false} TagNumberMeaning(s: string, tag: string, i: nat) returns (k: nat)
    requires i <= |s| && TagNumber(s, tag, i).Some?
    ensures IsFirstTag(s, tag, i, k) && TagNumber(s, tag, i) == Some(NumberBehind(s, tag, k))
    decreases |s| - i
  {
    if TagAt(s, tag, i) {
      k := i;
    } else {
      k := TagNumberMeaning(s, tag, i + 1);
    }
  }

  lemma TagFoundIff(s: string, tag: string)
    ensures TagNumber(s, tag, 0).Some? <==> HasTag(s, tag)
  {
    if TagNumber(s, tag, 0).Some? {
      var k := TagNumberMeaning(s, tag, 0);
    } else {
      TagMissing(s, tag, 0);
    }
  }

  /** Exactly which folder names the second parser accepts. */
  lemma FolderNameAcceptsIff(folder: string)
    ensures ParseFolderName(folder).Some? <==>
            && (Contains(folder, "TEST_TYPE_DMA") || Contains(folder, "TEST_TYPE_SOLO"))
            && HasTag(folder, "snoop") && HasTag(folder, "ch") && HasTag(folder, "coh")
  {
    TagFoundIff(folder, "snoop");
    TagFoundIff(folder, "ch");
    TagFoundIff(folder, "coh");
    FpgaIsDma(folder);
  }

  lemma FpgaIsDma(s: string)
    ensures Contains(s, "TEST_TYPE_DMA_FPGA") ==> Contains(s, "TEST_TYPE_DMA")
  {
    var long, short := "TEST_TYPE_DMA_FPGA", "TEST_TYPE_DMA";
    assert long[..|short|] == short;
    if i :| 0 <= i <= |s| && StartsAt(s, i, long) {
      assert s[i..i + |short|] == s[i..i + |long|][..|short|];
      assert StartsAt(s, i, short);
    }
  }
}
