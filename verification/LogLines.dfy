/** What `parse_log` (hist_macro.py) can see of one line: the string operations, and their results. */
module LogLines {
  import opened Wrappers
  import opened Strings
  import opened Arithmetic
  import opened LogMachine

  const HEADER := "mibench/automotive/"
  const FINAL := "Final result:"

  // ---- string operations

  /** The ASCII characters `str.strip` removes: tab to carriage return, the four information separators
      and the space. */
  predicate IsSpace(c: char) {
    '\U{09}' <= c <= '\U{0D}' || '\U{1C}' <= c <= '\U{1F}' || c == ' '
  }

  /** `s.strip()`. */
  function Strip(s: string): string {
    if s == "" then ""
    else if IsSpace(s[0]) then Strip(s[1..])
    else if IsSpace(s[|s| - 1]) then Strip(s[..|s| - 1])
    else s
  }

  /** `s.split(sub)[-1]`: the text after the last of the non-overlapping occurrences, found left to right. */
  function AfterLast(s: string, sub: string): string
    requires sub != ""
    decreases |s|
  {
    var i := Find(s, sub, 0);
    if i.None? then s else AfterLast(s[i.value + |sub|..], sub)
  }

  /** The leftmost occurrence at or after `i`. */
  function Find(s: string, sub: string, i: nat): (r: Option<nat>)
    requires i <= |s|
    ensures r.Some? ==> i <= r.value && StartsAt(s, r.value, sub)
    ensures r.Some? ==> forall k | i <= k < r.value :: !StartsAt(s, k, sub)
    ensures r.None? ==> forall k | i <= k <= |s| :: !StartsAt(s, k, sub)
    decreases |s| - i
  {
    if StartsAt(s, i, sub) then Some(i) else if i == |s| then None else Find(s, sub, i + 1)
  }

  predicate NumberChar(c: char) { IsDigit(c) || c == '.' }

  function NumberRun(s: string): (k: nat)
    ensures k <= |s|
  {
    if s == "" || !NumberChar(s[0]) then 0 else 1 + NumberRun(s[1..])
  }

  /** `re.search("[\d.]+", s)`: the first run of digits and points. */
  function NumberIn(s: string): Option<string> {
    if s == "" then None
    else if NumberChar(s[0]) then Some(s[..NumberRun(s)])
    else NumberIn(s[1..])
  }

  /** `float(token)` for such a run: it needs a digit and allows one point; anything else raises. */
  function ParseFloat(token: string): Option<real> {
    var i := Find(token, ".", 0);
    if i.None? then
      if token != "" && AllDigits(token) then Some(ParseDecimal(token) as real) else None
    else
      var whole, part := token[..i.value], token[i.value + 1..];
      if AllDigits(whole) && AllDigits(part) && whole + part != "" then
        Some(ParseDecimal(whole) as real + ParseDecimal(part) as real / Pow10(|part|) as real)
      else None
  }

  // ---- what a line is

  function AsNumber(token: Option<string>): Number {
    if token.None? then Absent
    else
      var v := ParseFloat(token.value);
      if v.None? then Bad(token.value) else Value(v.value)
  }

  /** Everything the state machine asks about a line. */
  function Read(line: string): Facts {
    var l := Strip(line);
    Facts(Contains(l, HEADER), Strip(AfterLast(l, HEADER)),
          Contains(l, FINAL), AsNumber(NumberIn(Strip(AfterLast(l, FINAL)))),
          AsNumber(NumberIn(l)))
  }

  function ReadAll(lines: seq<string>): (r: seq<Facts>)
    ensures |r| == |lines|
    ensures forall i | 0 <= i < |lines| :: r[i] == Read(lines[i])
  {
    seq(|lines|, i requires 0 <= i < |lines| => Read(lines[i]))
  }

  /** The loop body: one line. */
  method ParseLine(line: string, current: Option<string>, grab: bool, results: map<string, real>, ghost c: Config,
                   ghost n: nat)
    returns (current': Option<string>, grab': bool, results': map<string, real>, error: Option<LogError>)
    requires c.s == State(current, grab, results)
    ensures var step := Step(c, Read(line), n);
            if error.Some? then step == Err(error.value)
            else step.Ok? && step.value.s == State(current', grab', results')
  {
    current', grab', results', error := current, grab, results, None;
    var text := Strip(line);
    if grab && current.Some? && current.value != "" {
      var m := NumberIn(text);
      if m.Some? {
        var v := ParseFloat(m.value);
        if v.None? {
          error := Some(NotAFloat(m.value));
          return;
        }
        results' := results[current.value := v.value];
      }
      current', grab' := None, false;
      return;
    }
    if Contains(text, HEADER) {
      current', grab' := Some(Strip(AfterLast(text, HEADER))), false;
      return;
    }
    if Contains(text, FINAL) && current.Some? && current.value != "" {
      var m := NumberIn(Strip(AfterLast(text, FINAL)));
      if m.Some? {
        var v := ParseFloat(m.value);
        if v.None? {
          error := Some(NotAFloat(m.value));
          return;
        }
        results' := results[current.value := v.value];
        current' := None;
      } else {
        grab' := true;
      }
    }
  }

  method ParseLog(lines: seq<string>) returns (r: Result<map<string, real>, LogError>)
    ensures r == Outcome(ReadAll(lines))
  {
    ghost var log := ReadAll(lines);
    var results: map<string, real>, current: Option<string>, grab := map[], None, false;
    ghost var c := Start();
    for n := 0 to |lines|
      invariant Run(log, n) == Ok(c) && c.s == State(current, grab, results)
    {
      var error;
      ghost var step := Step(c, log[n], n);
      RunNext(log, n);
      current, grab, results, error := ParseLine(lines[n], current, grab, results, c, n);
      if error.Some? {
        ErrorStays(log, n + 1);
        return Err(error.value);
      }
      c := step.value;
    }
    r := Ok(results);
  }

  // ---- what the string operations mean

  predicate AllSpace(s: string) {
    forall i | 0 <= i < |s| :: IsSpace(s[i])
  }

  /** No white space at either end. */
  predicate Trimmed(s: string) {
    s != "" ==> !IsSpace(s[0]) && !IsSpace(s[|s| - 1])
  }

  /** `strip` takes white space off both ends, and all of it. */
  lemma {:induction false} StripMeaning(s: string) returns (i: nat, j: nat)
    ensures i <= j <= |s| && Strip(s) == s[i..j] && Trimmed(Strip(s))
    ensures forall k | 0 <= k < i || j <= k < |s| :: IsSpace(s[k])
    decreases |s|
  {
    i, j := 0, |s|;
    if s != "" && IsSpace(s[0]) {
      i, j := StripMeaning(s[1..]);
      StripFront(s, i, j);
      i, j := i + 1, j + 1;
    } else if s != "" && IsSpace(s[|s| - 1]) {
      i, j := StripMeaning(s[..|s| - 1]);
      assert s[..|s| - 1][i..j] == s[i..j];
    }
  }

  lemma StripFront(s: string, i: nat, j: nat)
    requires s != "" && i <= j <= |s| - 1 && IsSpace(s[0])
    requires forall k | 0 <= k < i || j <= k < |s| - 1 :: IsSpace(s[1..][k])
    ensures s[1..][i..j] == s[i + 1..j + 1]
    ensures forall k | 0 <= k < i + 1 || j + 1 <= k < |s| :: IsSpace(s[k])
  {
    forall k | 0 <= k < i + 1 || j + 1 <= k < |s| ensures IsSpace(s[k]) {
      if k > 0 { assert IsSpace(s[1..][k - 1]); }
    }
  }

  lemma NotFound(s: string, sub: string)
    requires Find(s, sub, 0).None?
    ensures !Contains(s, sub)
  {
  }

  /** The text after the last occurrence holds no further one. */
  lemma {:induction false} NoneAfterLast(s: string, sub: string)
    requires sub != ""
    ensures !Contains(AfterLast(s, sub), sub)
    decreases |s|
  {
    var i := Find(s, sub, 0);
    if i.None? { NotFound(s, sub); } else { NoneAfterLast(s[i.value + |sub|..], sub); }
  }

  /** `s` is some text, then `sub`, then `r`. */
  ghost predicate Follows(s: string, sub: string, r: string) {
    exists a :: s == a + (sub + r)
  }

  lemma FollowsMore(s: string, sub: string, i: nat, r: string)
    requires StartsAt(s, i, sub) && (r == s[i + |sub|..] || Follows(s[i + |sub|..], sub, r))
    ensures Follows(s, sub, r)
  {
    var rest := s[i + |sub|..];
    assert s == s[..i] + (sub + rest);
    if r != rest {
      var a :| rest == a + (sub + r);
      assert s == s[..i] + sub + a + (sub + r);
    }
  }

  /** It is the whole text, or stands directly behind an occurrence. */
  lemma {:induction false} AfterLastFollows(s: string, sub: string, r: string)
    requires sub != "" && r == AfterLast(s, sub)
    ensures r == s || Follows(s, sub, r)
    decreases |s|
  {
    var i := Find(s, sub, 0);
    if i.Some? {
      AfterLastFollows(s[i.value + |sub|..], sub, r);
      FollowsMore(s, sub, i.value, r);
    }
  }

  predicate NoNumberChar(s: string) {
    forall i | 0 <= i < |s| :: !NumberChar(s[i])
  }

  predicate AllNumberChars(s: string) {
    forall i | 0 <= i < |s| :: NumberChar(s[i])
  }

  lemma {:induction false} NumberRunMeaning(s: string)
    ensures AllNumberChars(s[..NumberRun(s)])
    ensures NumberRun(s) < |s| ==> !NumberChar(s[NumberRun(s)])
  {
    if s != "" && NumberChar(s[0]) {
      NumberRunMeaning(s[1..]);
      assert s[..NumberRun(s)] == [s[0]] + s[1..][..NumberRun(s[1..])];
    }
  }

  /** The token is the first run of digits and points, taken whole. */
  lemma {:induction false} NumberInMeaning(s: string) returns (i: nat, j: nat)
    ensures NumberIn(s).None? <==> NoNumberChar(s)
    ensures NumberIn(s).Some? ==>
              && i < j <= |s| && NumberIn(s).value == s[i..j] && NoNumberChar(s[..i]) && AllNumberChars(s[i..j])
              && (j < |s| ==> !NumberChar(s[j]))
    decreases |s|
  {
    i, j := 0, 0;
    if s != "" && NumberChar(s[0]) {
      NumberRunMeaning(s);
      j := NumberRun(s);
    } else if s != "" {
      i, j := NumberInMeaning(s[1..]);
      assert forall k | 0 <= k < |s| - 1 :: s[1..][k] == s[k + 1];
      if NumberIn(s).Some? {
        assert s[1..][i..j] == s[i + 1..j + 1];
        assert s[..i + 1] == [s[0]] + s[1..][..i];
      }
      i, j := i + 1, j + 1;
    }
  }

  // ---- what a number means

  lemma PointAt(s: string, k: nat)
    ensures StartsAt(s, k, ".") <==> k < |s| && s[k] == '.'
  {
    if k < |s| { assert s[k..k + 1] == [s[k]]; }
  }

  lemma FirstPoint(s: string, w: string, p: string)
    requires AllDigits(w) && s == w + "." + p
    ensures Find(s, ".", 0) == Some(|w|) && s[..|w|] == w && s[|w| + 1..] == p
  {
    PointAt(s, |w|);
    forall k | 0 <= k < |w| ensures !StartsAt(s, k, ".") {
      assert s[k] == w[k];
      PointAt(s, k);
    }
  }

  /** A decimal: its value, times ten for every digit behind the point, is the number all its digits spell. */
  lemma DecimalValue(w: string, p: string)
    requires AllDigits(w) && AllDigits(p) && w + p != ""
    ensures var v := ParseFloat(w + "." + p);
            v.Some? && AllDigits(w + p) && Spells(v.value, Pow10(|p|), ParseDecimal(w + p))
  {
    var s := w + "." + p;
    FirstPoint(s, w, p);
    ParseDecimalConcat(w, p);
    PlaceValue(ParseDecimal(w), Pow10(|p|), ParseDecimal(p));
  }

  /** `v` times this power of ten is the number. */
  predicate Spells(v: real, power: nat, number: nat) {
    v * power as real == number as real
  }

  lemma PlaceValue(a: nat, t: nat, b: nat)
    requires t > 0
    ensures Spells(a as real + b as real / t as real, t, a * t + b)
  {
    var q := Quotient(b as real, t as real);
    assert (a as real + q) * t as real == a as real * t as real + q * t as real;
  }

  /** A whole number is the number its digits spell. */
  lemma WholeValue(w: string)
    requires w != "" && AllDigits(w)
    ensures ParseFloat(w) == Some(ParseDecimal(w) as real)
  {
    forall k | 0 <= k <= |w| ensures !StartsAt(w, k, ".") { PointAt(w, k); }
  }

  /** Exactly which tokens `float` takes: those with a digit and at most one point. */
  lemma FloatAcceptsIff(t: string)
    requires AllNumberChars(t)
    ensures ParseFloat(t).Some? <==>
            (exists i :: 0 <= i < |t| && IsDigit(t[i])) && forall i, j | 0 <= i < j < |t| :: t[i] != '.' || t[j] != '.'
  {
    var f := Find(t, ".", 0);
    if f.None? {
      forall k | 0 <= k < |t| ensures IsDigit(t[k]) { PointAt(t, k); }
      assert t != "" ==> IsDigit(t[0]);
    } else {
      forall k | 0 <= k < f.value ensures IsDigit(t[k]) { PointAt(t, k); }
      PointAt(t, f.value);
      var whole, part := t[..f.value], t[f.value + 1..];
      PartDigits(t, f.value);
      if whole != "" { assert IsDigit(t[0]); }
      if part != "" { assert part[0] == t[f.value + 1]; }
    }
  }

  lemma PartDigits(t: string, f: nat)
    requires AllNumberChars(t) && f < |t| && t[f] == '.' && AllDigits(t[..f])
    ensures AllDigits(t[f + 1..]) <==> forall i, j | 0 <= i < j < |t| :: t[i] != '.' || t[j] != '.'
  {
    var part := t[f + 1..];
    if AllDigits(part) {
      forall i, j | 0 <= i < j < |t| ensures t[i] != '.' || t[j] != '.' {
        if j > f { assert part[j - f - 1] == t[j]; } else { assert t[..f][i] == t[i]; }
      }
    }
    if forall i, j | 0 <= i < j < |t| :: t[i] != '.' || t[j] != '.' {
      forall k | 0 <= k < |part| ensures IsDigit(part[k]) { assert part[k] == t[k + f + 1]; }
    }
  }

  // ---- a time that is read

  /** A token and what may stand behind it on its line. */
  ghost predicate TokenLine(token: string, rest: string) {
    token != "" && AllNumberChars(token) && (rest == "" || !NumberChar(rest[0]))
  }

  lemma {:induction false} RunIsToken(token: string, rest: string)
    requires AllNumberChars(token) && (rest == "" || !NumberChar(rest[0]))
    ensures NumberRun(token + rest) == |token|
  {
    if token == "" {
      assert token + rest == rest;
    } else {
      assert (token + rest)[1..] == token[1..] + rest;
      RunIsToken(token[1..], rest);
    }
  }

  lemma TokenIn(token: string, rest: string)
    requires TokenLine(token, rest)
    ensures NumberIn(token + rest) == Some(token)
  {
    RunIsToken(token, rest);
    assert (token + rest)[..|token|] == token;
  }

  /** Stripping a line whose beginning has no white space at its ends keeps that beginning. */
  lemma {:induction false} StripKeepsHead(head: string, rest: string) returns (kept: nat)
    requires head != "" && Trimmed(head)
    ensures kept <= |rest| && Strip(head + rest) == head + rest[..kept]
    decreases |rest|
  {
    var s := head + rest;
    kept := |rest|;
    assert s[0] == head[0];
    if rest == "" {
      assert s == head;
    } else if IsSpace(s[|s| - 1]) {
      assert s[..|s| - 1] == head + rest[..|rest| - 1];
      kept := StripKeepsHead(head, rest[..|rest| - 1]);
      assert rest[..|rest| - 1][..kept] == rest[..kept];
    } else {
      assert rest[..kept] == rest;
    }
  }

  lemma {:induction false} StripDropsTail(head: string, space: string)
    requires Trimmed(head) && head != "" && AllSpace(space)
    ensures Strip(head + space) == head
  {
    if space == "" {
      assert head + space == head;
    } else {
      var s := head + space;
      assert s[0] == head[0] && s[|s| - 1] == space[|space| - 1];
      assert s[..|s| - 1] == head + space[..|space| - 1];
      StripDropsTail(head, space[..|space| - 1]);
    }
  }

  lemma TokenTrimmed(token: string)
    requires token != "" && AllNumberChars(token)
    ensures Trimmed(token)
  {
    assert NumberChar(token[0]) && NumberChar(token[|token| - 1]);
  }

  lemma KeptToken(token: string, rest: string, kept: nat)
    requires TokenLine(token, rest) && kept <= |rest|
    ensures TokenLine(token, rest[..kept])
  {
  }

  /** The first number of a line that starts with one. */
  lemma WholeRead(token: string, rest: string)
    requires TokenLine(token, rest)
    ensures Read(token + rest).whole == AsNumber(Some(token))
  {
    TokenTrimmed(token);
    var kept := StripKeepsHead(token, rest);
    KeptToken(token, rest, kept);
    TokenIn(token, rest[..kept]);
  }

  /** A header line: the marker text, a name without white space at its ends, and white space. */
  lemma HeaderRead(name: string, space: string)
    requires name != "" && Trimmed(name) && !Contains(name, HEADER) && AllSpace(space)
    ensures Read(HEADER + name + space).header && Read(HEADER + name + space).name == name
  {
    var l := HEADER + name;
    assert l[0] == 'm' && l[|l| - 1] == name[|name| - 1];
    StripDropsTail(l, space);
    HeadOnce(l, HEADER, name);
    assert name + "" == name;
    StripDropsTail(name, "");
  }

  lemma HeadOnce(l: string, sub: string, rest: string)
    requires sub != "" && l == sub + rest && !Contains(rest, sub)
    ensures Contains(l, sub) && AfterLast(l, sub) == rest
  {
    assert StartsAt(l, 0, sub);
    assert l[|sub|..] == rest;
    NoneLeft(rest, sub);
  }

  lemma NoneLeft(rest: string, sub: string)
    requires sub != "" && !Contains(rest, sub)
    ensures AfterLast(rest, sub) == rest
  {
  }

  /** A marker line with nothing but white space behind the marker. */
  lemma MarkerRead(space: string)
    requires AllSpace(space)
    ensures OpenMarker(Read(FINAL + space))
  {
    assert FINAL[0] == 'F' && FINAL[|FINAL| - 1] == ':';
    StripDropsTail(FINAL, space);
    MarkerLine(FINAL);
    assert Strip(FINAL) == FINAL by { assert FINAL + "" == FINAL; StripDropsTail(FINAL, ""); }
  }

  /** End to end, for a time on the line after the marker: a benchmark header, the marker, and a line that
      begins with a decimal, whatever follows it there; the log yields this one time under this one name. */
  lemma TimeOnNextLine(name: string, w: string, p: string, rest: string, space: string, space': string)
    requires name != "" && Trimmed(name) && !Contains(name, HEADER) && AllSpace(space) && AllSpace(space')
    requires AllDigits(w) && AllDigits(p) && w + p != "" && (rest == "" || !NumberChar(rest[0]))
    ensures var r := Outcome(ReadAll([HEADER + name + space, FINAL + space', w + "." + p + rest]));
            && r.Ok? && r.value.Keys == {name}
            && Spells(r.value[name], Pow10(|p|), ParseDecimal(w + p))
  {
    var token := w + "." + p;
    DecimalValue(w, p);
    HeaderRead(name, space);
    MarkerRead(space');
    WholeRead(token, rest);
    TwoThenNumber(ReadAll([HEADER + name + space, FINAL + space', token + rest]), name, ParseFloat(token).value);
  }

  lemma TwoThenNumber(log: seq<Facts>, name: string, v: real)
    requires |log| == 3 && log[0].header && log[0].name == name != "" && OpenMarker(log[1]) && log[2].whole == Value(v)
    ensures Outcome(log) == Ok(map[name := v])
  {
    assert Run(log, 1) == Ok(Config(State(Some(name), false, map[]), 0, []));
    assert Run(log, 2) == Ok(Config(State(Some(name), true, map[]), 0, []));
    RunNext(log, 2);
  }

  lemma PrefixLacks(s: string, t: string, sub: string)
    requires t <= s && !Contains(s, sub)
    ensures !Contains(t, sub)
  {
    forall i | 0 <= i <= |t| ensures !StartsAt(t, i, sub) {
      if i + |sub| <= |t| { assert t[i..i + |sub|] == s[i..i + |sub|] && !StartsAt(s, i, sub); }
    }
  }

  lemma {:induction false} StripSkips(gap: string, s: string)
    requires AllSpace(gap)
    ensures Strip(gap + s) == Strip(s)
  {
    if gap == "" {
      assert gap + s == s;
    } else {
      assert (gap + s)[1..] == gap[1..] + s;
      StripSkips(gap[1..], s);
    }
  }

  /** The number behind a marker. */
  lemma BehindMarker(gap: string, token: string, rest: string)
    requires AllSpace(gap) && TokenLine(token, rest)
    ensures NumberIn(Strip(gap + (token + rest))) == Some(token)
  {
    StripSkips(gap, token + rest);
    TokenTrimmed(token);
    var kept := StripKeepsHead(token, rest);
    KeptToken(token, rest, kept);
    TokenIn(token, rest[..kept]);
  }

  lemma MarkerHead(gap: string, token: string, rest: string) returns (kept: nat)
    requires TokenLine(token, rest)
    ensures kept <= |rest| && Strip(FINAL + (gap + (token + rest))) == FINAL + (gap + (token + rest[..kept]))
  {
    var head := FINAL + gap + token;
    assert head[0] == FINAL[0] && head[|head| - 1] == token[|token| - 1];
    kept := StripKeepsHead(head, rest);
    assert head + rest == FINAL + (gap + (token + rest));
    assert head + rest[..kept] == FINAL + (gap + (token + rest[..kept]));
  }

  lemma InlineRead(gap: string, token: string, rest: string)
    requires AllSpace(gap) && TokenLine(token, rest)
    requires !Contains(gap + (token + rest), FINAL) && !Contains(FINAL + (gap + (token + rest)), HEADER)
    ensures var r := Read(FINAL + (gap + (token + rest))); !r.header && r.final && r.inline == AsNumber(Some(token))
  {
    var kept := MarkerHead(gap, token, rest);
    var after := gap + (token + rest[..kept]);
    PrefixLacks(gap + (token + rest), after, FINAL);
    PrefixLacks(FINAL + (gap + (token + rest)), FINAL + after, HEADER);
    HeadOnce(FINAL + after, FINAL, after);
    KeptToken(token, rest, kept);
    BehindMarker(gap, token, rest[..kept]);
  }

  /** End to end, for a time on the marker's own line. */
  lemma TimeOnSameLine(name: string, w: string, p: string, rest: string, space: string, gap: string)
    requires name != "" && Trimmed(name) && !Contains(name, HEADER) && AllSpace(space) && AllSpace(gap)
    requires AllDigits(w) && AllDigits(p) && w + p != "" && (rest == "" || !NumberChar(rest[0]))
    requires var after := gap + (w + "." + p + rest); !Contains(after, FINAL) && !Contains(FINAL + after, HEADER)
    ensures var r := Outcome(ReadAll([HEADER + name + space, FINAL + (gap + (w + "." + p + rest))]));
            && r.Ok? && r.value.Keys == {name}
            && Spells(r.value[name], Pow10(|p|), ParseDecimal(w + p))
  {
    var token := w + "." + p;
    DecimalValue(w, p);
    HeaderRead(name, space);
    InlineRead(gap, token, rest);
    OneThenNumber(ReadAll([HEADER + name + space, FINAL + (gap + (token + rest))]), name, ParseFloat(token).value);
  }

  lemma OneThenNumber(log: seq<Facts>, name: string, v: real)
    requires |log| == 2 && log[0].header && log[0].name == name != ""
    requires !log[1].header && log[1].final && log[1].inline == Value(v)
    ensures Outcome(log) == Ok(map[name := v])
  {
    assert Run(log, 1) == Ok(Config(State(Some(name), false, map[]), 0, []));
    RunNext(log, 1);
  }

  // ---- a time that is lost

  /** A line that starts with a text has what follows it after the last occurrence, if it is not repeated. */
  lemma AfterHead(l: string, sub: string, rest: string)
    requires sub != "" && |rest| < |sub| && l == sub + rest
    ensures Contains(l, sub) && AfterLast(l, sub) == rest
  {
    assert StartsAt(l, 0, sub);
    assert l[|sub|..] == rest;
  }

  lemma {:induction false} NoNumber(s: string)
    requires forall i | 0 <= i < |s| :: !NumberChar(s[i])
    ensures NumberIn(s).None?
  {
    if s != "" { NoNumber(s[1..]); }
  }

  lemma HeaderLine(name: char, l: string)
    requires 'a' <= name <= 'z' && l == HEADER + [name]
    ensures Read(l).header && Read(l).name == [name] && Read(l).whole == Absent
  {
    assert Strip(l) == l by { assert l[0] == 'm' && l[|l| - 1] == name; }
    AfterHead(l, HEADER, [name]);
    assert Strip([name]) == [name];
    NoNumber(l);
  }

  lemma MarkerLine(l: string)
    requires l == FINAL
    ensures OpenMarker(Read(l))
  {
    assert l[0] == 'F' && l[|l| - 1] == ':';
    AfterHead(l, l, "");
  }

  lemma One()
    ensures AsNumber(NumberIn(Strip(" 1"))) == Value(1.0)
  {
    assert Strip(" 1") == "1" by { assert " 1"[1..] == "1"; }
    assert NumberIn("1") == Some("1") by {
      assert "1"[1..] == "";
      assert NumberRun("1") == 1;
      assert "1"[..1] == "1";
    }
    assert ParseFloat("1") == Some(1.0) by { assert ParseDecimal("1") == 1 by { assert "1"[..0] == ""; } }
  }

  lemma NumberLine(l: string)
    requires l == FINAL + " 1"
    ensures !Read(l).header && Read(l).final && Read(l).inline == Value(1.0)
  {
    assert l[0] == 'F' && l[|l| - 1] == '1';
    AfterHead(l, FINAL, " 1");
    One();
  }

  /** Four lines of text: two benchmarks, the first without a number after its marker. */
  function LosingLog(): seq<string> {
    [HEADER + "a", FINAL, HEADER + "b", FINAL + " 1"]
  }

  /** What the machine sees on the `k`-th of them. */
  predicate LosingFacts(k: nat, r: Facts) {
    match k
    case 0 => Named(r)
    case 1 => OpenMarker(r)
    case 2 => Named(r) && r.name == "b" && r.whole == Absent
    case _ => !r.header && r.final && r.inline == Value(1.0)
  }

  lemma LosingLine(k: nat, l: string)
    requires k < 4 && l == LosingLog()[k]
    ensures LosingFacts(k, Read(l))
  {
    if k == 0 { HeaderLine('a', l); }
    else if k == 1 { MarkerLine(l); }
    else if k == 2 { HeaderLine('b', l); }
    else { NumberLine(l); }
  }

  ghost predicate Losing(log: seq<Facts>) {
    |log| == 4 && forall k | 0 <= k < 4 :: LosingFacts(k, log[k])
  }

  /** A header can be lost: in these lines the second benchmark has a complete pattern, and nothing is
      stored for it, because its header stands where the number of the first was expected. */
  lemma HeaderCanBeLost()
    ensures IsCredit(ReadAll(LosingLog()), Credit(2, 3, "b", 1.0)) && Lost(ReadAll(LosingLog()), 2)
    ensures Outcome(ReadAll(LosingLog())) == Ok(map[])
  {
    LosingReads(LosingLog());
    LosingRun(ReadAll(LosingLog()));
  }

  lemma LosingReads(lines: seq<string>)
    requires lines == LosingLog()
    ensures Losing(ReadAll(lines))
  {
    forall k | 0 <= k < 4 ensures LosingFacts(k, ReadAll(lines)[k]) {
      LosingLine(k, lines[k]);
    }
  }

  lemma LosingRun(log: seq<Facts>)
    requires Losing(log)
    ensures IsCredit(log, Credit(2, 3, "b", 1.0)) && Lost(log, 2) && Outcome(log) == Ok(map[])
  {
    assert LosingFacts(0, log[0]) && LosingFacts(1, log[1]) && LosingFacts(2, log[2]) && LosingFacts(3, log[3]);
    assert Matches(log, Credit(2, 3, "b", 1.0), 3);
    assert Named(log[0]) && Quiet(log, 0, 1) && !Lost(log, 0);
    var a := log[0].name;
    assert Run(log, 1) == Ok(Config(State(Some(a), false, map[]), 0, []));
    assert Run(log, 2) == Ok(Config(State(Some(a), true, map[]), 0, []));
    assert Run(log, 3) == Ok(Config(State(None, false, map[]), 0, []));
  }
}
