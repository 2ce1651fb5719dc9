/** The line-by-line state machine of `parse_log` (hist_macro.py), over what can be seen of each line. */
module LogMachine {
  import opened Wrappers

  /** A number token: none, one that `float` refuses, or its value. */
  datatype Number = Absent | Bad(token: string) | Value(v: real)

  /** One line: whether it carries a benchmark header, and the name in it; whether it carries the result
      marker, and the number behind it; the first number of the whole line. */
  datatype Facts = Facts(header: bool, name: string, final: bool, inline: Number, whole: Number)

  // ---- the state machine

  datatype State = State(current: Option<string>, grab: bool, results: map<string, real>) {
    /** Python's truth value of `current_bench`: neither `None` nor the empty name. */
    predicate Active() { current.Some? && current.value != "" }
  }

  datatype LogError = NotAFloat(token: string)

  /** A time stored for the header on line `header`, read on line `line`. */
  datatype Credit = Credit(header: nat, line: nat, bench: string, value: real)

  /** The state, with a record of how it came about. */
  datatype Config = Config(s: State, header: nat, credits: seq<Credit>)

  function Store(c: Config, v: real, line: nat, grab: bool): Config
    requires c.s.Active()
  {
    Config(State(None, grab, c.s.results[c.s.current.value := v]), c.header,
           c.credits + [Credit(c.header, line, c.s.current.value, v)])
  }

  /** One line, number `n`. */
  function Step(c: Config, line: Facts, n: nat): Result<Config, LogError> {
    if c.s.grab && c.s.Active() then
      match line.whole
      case Bad(token) => Err(NotAFloat(token))
      case Value(v) => Ok(Store(c, v, n, false))
      case Absent => Ok(c.(s := State(None, false, c.s.results)))
    else if line.header then Ok(Config(State(Some(line.name), false, c.s.results), n, c.credits))
    else if line.final && c.s.Active() then
      match line.inline
      case Bad(token) => Err(NotAFloat(token))
      case Value(v) => Ok(Store(c, v, n, c.s.grab))
      case Absent => Ok(c.(s := c.s.(grab := true)))
    else Ok(c)
  }

  function Start(): Config {
    Config(State(None, false, map[]), 0, [])
  }

  /** The first `n` lines of a log. */
  function Run(log: seq<Facts>, n: nat): Result<Config, LogError>
    requires n <= |log|
  {
    if n == 0 then Ok(Start())
    else
      var before := Run(log, n - 1);
      if before.Err? then before else Step(before.value, log[n - 1], n - 1)
  }

  lemma RunNext(log: seq<Facts>, n: nat)
    requires n < |log| && Run(log, n).Ok?
    ensures Run(log, n + 1) == Step(Run(log, n).value, log[n], n)
  {
  }

  /** What parsing the whole log returns. */
  function Outcome(log: seq<Facts>): Result<map<string, real>, LogError> {
    var run := Run(log, |log|);
    if run.Err? then Err(run.error) else Ok(run.value.s.results)
  }

  lemma {:induction false} ErrorStays(log: seq<Facts>, n: nat)
    requires n <= |log| && Run(log, n).Err?
    ensures Run(log, |log|) == Run(log, n)
    decreases |log| - n
  {
    if n < |log| { ErrorStays(log, n + 1); }
  }

  lemma {:induction false} OkBefore(log: seq<Facts>, m: nat, n: nat)
    requires m <= n <= |log| && Run(log, n).Ok?
    ensures Run(log, m).Ok?
    decreases n
  {
    if m < n { OkBefore(log, m, n - 1); }
  }

  // ---- what a stored time means

  /** The pattern a credit stands for, said of the log alone: a named header, then, with neither header
      nor marker between, a marker line; the number follows the marker, or, when none does, is the first
      one of the very next line. */
  ghost predicate Matches(log: seq<Facts>, c: Credit, f: nat) {
    && c.header < f <= c.line < |log| && c.line <= f + 1
    && log[c.header].header && log[c.header].name == c.bench && c.bench != ""
    && (forall m | c.header < m < f :: !log[m].header && !log[m].final)
    && !log[f].header && log[f].final
    && (if c.line == f then log[f].inline == Value(c.value)
        else log[f].inline == Absent && log[c.line].whole == Value(c.value))
  }

  ghost predicate IsCredit(log: seq<Facts>, c: Credit) {
    Matches(log, c, c.line) || (c.line > 0 && Matches(log, c, c.line - 1))
  }

  /** The last value credited to each name. */
  function LastValues(credits: seq<Credit>): map<string, real> {
    if credits == [] then map[]
    else LastValues(credits[..|credits| - 1])[credits[|credits| - 1].bench := credits[|credits| - 1].value]
  }

  /** A pending number always belongs to a named benchmark, and was announced on the line just read; the
      current name is that of the last header, and nothing announced a number for it before. */
  ghost predicate InvState(log: seq<Facts>, n: nat, c: Config)
    requires n <= |log|
  {
    && (c.s.grab ==> c.s.Active() && c.header < n - 1 && log[n - 1].final && log[n - 1].inline == Absent)
    && (c.s.current.Some? ==>
          && c.header < n && log[c.header].header && log[c.header].name == c.s.current.value
          && (forall m | c.header < m < n :: !log[m].header)
          && (c.s.Active() ==> forall m | c.header < m < (if c.s.grab then n - 1 else n) :: !log[m].final))
  }

  /** Every credit is what it claims to be, they follow each other, and the results are their last values. */
  ghost predicate InvCredits(log: seq<Facts>, n: nat, c: Config)
    requires n <= |log|
  {
    && (forall k | 0 <= k < |c.credits| :: c.credits[k].line < n && IsCredit(log, c.credits[k]))
    && (forall a, b | 0 <= a < b < |c.credits| :: c.credits[a].line < c.credits[b].header)
    && (c.s.current.Some? ==> forall k | 0 <= k < |c.credits| :: c.credits[k].line < c.header)
    && c.s.results == LastValues(c.credits)
  }

  /** What holds after every prefix of every log. */
  ghost predicate Inv(log: seq<Facts>, n: nat, c: Config)
    requires n <= |log|
  {
    InvState(log, n, c) && InvCredits(log, n, c)
  }

  lemma StoreKeepsCredits(log: seq<Facts>, n: nat, c: Config, v: real, f: nat)
    requires n < |log| && InvCredits(log, n, c) && c.s.Active()
    requires Matches(log, Credit(c.header, n, c.s.current.value, v), f)
    requires f == n || f == n - 1
    ensures InvCredits(log, n + 1, Store(c, v, n, false))
  {
    var credit := Credit(c.header, n, c.s.current.value, v);
    assert IsCredit(log, credit);
    var credits := c.credits + [credit];
    assert credits[..|credits| - 1] == c.credits;
  }

  lemma StepKeepsState(log: seq<Facts>, n: nat, c: Config)
    requires n < |log| && InvState(log, n, c) && Step(c, log[n], n).Ok?
    ensures InvState(log, n + 1, Step(c, log[n], n).value)
  {
  }

  lemma StepKeepsCredits(log: seq<Facts>, n: nat, c: Config)
    requires n < |log| && Inv(log, n, c) && Step(c, log[n], n).Ok?
    ensures InvCredits(log, n + 1, Step(c, log[n], n).value)
  {
    var line := log[n];
    if c.s.grab && c.s.Active() {
      if line.whole.Value? { StoreKeepsCredits(log, n, c, line.whole.v, n - 1); }
    } else if line.header {
    } else if line.final && c.s.Active() {
      if line.inline.Value? { StoreKeepsCredits(log, n, c, line.inline.v, n); }
    }
  }

  lemma StepKeepsInv(log: seq<Facts>, n: nat, c: Config)
    requires n < |log| && Inv(log, n, c) && Step(c, log[n], n).Ok?
    ensures Inv(log, n + 1, Step(c, log[n], n).value)
  {
    StepKeepsState(log, n, c);
    StepKeepsCredits(log, n, c);
  }

  /** The invariant holds after every prefix of every log. */
  lemma {:induction false} InvAlways(log: seq<Facts>, n: nat)
    requires n <= |log| && Run(log, n).Ok?
    ensures Inv(log, n, Run(log, n).value)
  {
    if n > 0 {
      InvAlways(log, n - 1);
      StepKeepsInv(log, n - 1, Run(log, n - 1).value);
    }
  }

  /** Line `h` was read while a number was pending, so whatever it says was taken for the number line. */
  ghost predicate Swallowed(log: seq<Facts>, h: nat)
    requires h <= |log| && Run(log, h).Ok?
  {
    Run(log, h).value.s.grab
  }

  /** After an accepted header the machine waits for the marker. */
  lemma {:induction false} Waits(log: seq<Facts>, h: nat, m: nat)
    requires h < m <= |log| && Run(log, m).Ok? && Run(log, h).Ok? && !Swallowed(log, h)
    requires log[h].header && log[h].name != ""
    requires forall i | h < i < m :: !log[i].header && !log[i].final
    ensures var c := Run(log, m).value; c.s.current == Some(log[h].name) && !c.s.grab && c.header == h
    decreases m
  {
    if m > h + 1 { Waits(log, h, m - 1); }
  }

  lemma {:induction false} CreditsGrow(log: seq<Facts>, m: nat, n: nat)
    requires m <= n <= |log| && Run(log, n).Ok? && Run(log, m).Ok?
    ensures Run(log, m).value.credits <= Run(log, n).value.credits
    decreases n
  {
    if m < n {
      OkBefore(log, n - 1, n);
      CreditsGrow(log, m, n - 1);
    }
  }

  /** Nothing is missed: a pattern whose header was accepted is credited. */
  lemma PatternIsCredited(log: seq<Facts>, c: Credit, f: nat, n: nat)
    requires c.line < n <= |log| && Run(log, n).Ok? && Matches(log, c, f)
    requires Run(log, c.header).Ok? && !Swallowed(log, c.header)
    ensures c in Run(log, n).value.credits
  {
    var m := c.line + 1;
    OkBefore(log, m, n);
    CreditedSoFar(log, c, f);
    CreditStays(log, c, m, n);
  }

  lemma CreditedSoFar(log: seq<Facts>, c: Credit, f: nat)
    requires Matches(log, c, f) && Run(log, c.line + 1).Ok?
    requires Run(log, c.header).Ok? && !Swallowed(log, c.header)
    ensures c in Run(log, c.line + 1).value.credits
  {
    OkBefore(log, f, c.line + 1);
    Waits(log, c.header, f);
    StoredAt(log, c, f);
  }

  lemma CreditStays(log: seq<Facts>, c: Credit, m: nat, n: nat)
    requires m <= n <= |log| && Run(log, n).Ok? && Run(log, m).Ok?
    requires c in Run(log, m).value.credits
    ensures c in Run(log, n).value.credits
  {
    CreditsGrow(log, m, n);
    var a, b := Run(log, m).value.credits, Run(log, n).value.credits;
    var k :| 0 <= k < |a| && a[k] == c;
    assert b[k] == c;
  }

  lemma StoredAt(log: seq<Facts>, c: Credit, f: nat)
    requires Matches(log, c, f) && Run(log, c.line + 1).Ok? && Run(log, f).Ok?
    requires var w := Run(log, f).value; w.s.current == Some(c.bench) && !w.s.grab && w.header == c.header
    ensures c in Run(log, c.line + 1).value.credits
  {
    var w := Run(log, f).value;
    if c.line == f {
      assert Run(log, f + 1) == Ok(Store(w, c.value, f, false));
    } else {
      var armed := Run(log, f + 1).value;
      assert armed == w.(s := w.s.(grab := true));
      assert Run(log, f + 2) == Ok(Store(armed, c.value, f + 1, false));
    }
  }

  /** The names that were credited. */
  function Credited(credits: seq<Credit>): set<string> {
    set c | c in credits :: c.bench
  }

  /** Exactly the credited names, each with the value credited to it last. */
  ghost predicate HoldsLast(credits: seq<Credit>, results: map<string, real>) {
    && results.Keys == Credited(credits)
    && (forall k | 0 <= k < |credits| && IsLast(credits, k) ::
          credits[k].bench in results && results[credits[k].bench] == credits[k].value)
  }

  /** No later credit is for the same name. */
  ghost predicate IsLast(credits: seq<Credit>, k: nat)
    requires k < |credits|
  {
    forall j | k < j < |credits| :: credits[j].bench != credits[k].bench
  }

  lemma {:induction false} LastKeys(credits: seq<Credit>)
    ensures LastValues(credits).Keys == Credited(credits)
  {
    if credits != [] {
      var n := |credits| - 1;
      LastKeys(credits[..n]);
      assert credits == credits[..n] + [credits[n]];
    }
  }

  lemma {:induction false} LastAt(credits: seq<Credit>, k: nat)
    requires k < |credits| && IsLast(credits, k)
    ensures credits[k].bench in LastValues(credits) && LastValues(credits)[credits[k].bench] == credits[k].value
  {
    var n := |credits| - 1;
    if k < n {
      assert credits[n].bench != credits[k].bench;
      LastAt(credits[..n], k);
    }
  }

  lemma LastValuesFacts(credits: seq<Credit>)
    ensures HoldsLast(credits, LastValues(credits))
  {
    LastKeys(credits);
    forall k | 0 <= k < |credits| && IsLast(credits, k)
      ensures credits[k].bench in LastValues(credits) && LastValues(credits)[credits[k].bench] == credits[k].value
    {
      LastAt(credits, k);
    }
  }

  /** What a log that parses yields.  Every credit is a pattern of the log; they come in the order of the
      log, each header at most once and none overlapping the next; the result maps each credited name to
      the value credited last, and holds no other name. */
  lemma ParseLogMeaning(log: seq<Facts>)
    requires Run(log, |log|).Ok?
    ensures var c := Run(log, |log|).value;
            && (forall k | 0 <= k < |c.credits| :: IsCredit(log, c.credits[k]))
            && (forall k | 0 <= k < |c.credits| :: c.credits[k].header <= c.credits[k].line)
            && (forall a, b | 0 <= a < b < |c.credits| :: c.credits[a].line < c.credits[b].header)
            && HoldsLast(c.credits, c.s.results)
  {
    InvAlways(log, |log|);
    LastValuesFacts(Run(log, |log|).value.credits);
  }

  lemma {:induction false} CreditedNotSwallowed(log: seq<Facts>, n: nat, c: Credit)
    requires n <= |log| && Run(log, n).Ok? && c in Run(log, n).value.credits
    ensures c.header < n && Run(log, c.header).Ok? && !Swallowed(log, c.header)
  {
    OkBefore(log, n - 1, n);
    var before := Run(log, n - 1).value;
    if c in before.credits {
      CreditedNotSwallowed(log, n - 1, c);
    } else {
      InvAlways(log, n - 1);
      HeaderAccepted(log, n - 1);
    }
  }

  /** Where the current header comes from. */
  lemma HeaderFrom(c: Config, line: Facts, n: nat)
    requires Step(c, line, n).Ok? && Step(c, line, n).value.s.current.Some? && (c.s.grab ==> c.s.Active())
    ensures var h := Step(c, line, n).value.header; (h == n && !c.s.grab) || (h == c.header && c.s.current.Some?)
  {
  }

  /** The current header was read while no number was pending. */
  lemma {:induction false} HeaderAccepted(log: seq<Facts>, n: nat)
    requires n <= |log| && Run(log, n).Ok? && Run(log, n).value.s.current.Some?
    ensures var h := Run(log, n).value.header; h < n && Run(log, h).Ok? && !Swallowed(log, h)
  {
    OkBefore(log, n - 1, n);
    var c := Run(log, n - 1).value;
    InvAlways(log, n - 1);
    HeaderFrom(c, log[n - 1], n - 1);
    if c.s.current.Some? { HeaderAccepted(log, n - 1); }
  }

  // ---- lost headers

  predicate Named(line: Facts) {
    line.header && line.name != ""
  }

  /** A result marker whose number is expected on the next line. */
  predicate OpenMarker(line: Facts) {
    !line.header && line.final && line.inline == Absent
  }

  /** Neither header nor marker strictly between the two lines. */
  ghost predicate Quiet(log: seq<Facts>, g: nat, f: nat)
    requires f <= |log|
  {
    forall m | g < m < f :: !log[m].header && !log[m].final
  }

  /** A test on the log alone: line `h` stands where the number of an earlier named header was expected,
      a header that was not lost itself. */
  ghost predicate Lost(log: seq<Facts>, h: nat)
    requires h <= |log|
    decreases h
  {
    h > 0 && OpenMarker(log[h - 1]) &&
    exists g: nat | g < h - 1 :: Named(log[g]) && Quiet(log, g, h - 1) && !Lost(log, g)
  }

  /** An open marker after an accepted header leaves a number pending. */
  lemma MarkerArms(log: seq<Facts>, g: nat, f: nat)
    requires g < f < |log| && Run(log, f + 1).Ok? && Run(log, g).Ok? && !Swallowed(log, g)
    requires Named(log[g]) && Quiet(log, g, f) && OpenMarker(log[f])
    ensures Swallowed(log, f + 1)
  {
    OkBefore(log, f, f + 1);
    Waits(log, g, f);
  }

  /** A pending number was announced by an open marker, after a header read while none was pending. */
  lemma PendingFrom(log: seq<Facts>, h: nat) returns (g: nat)
    requires h <= |log| && Run(log, h).Ok? && Swallowed(log, h)
    ensures g < h - 1 && Named(log[g]) && Quiet(log, g, h - 1) && OpenMarker(log[h - 1])
    ensures Run(log, g).Ok? && !Swallowed(log, g)
  {
    InvAlways(log, h);
    HeaderAccepted(log, h);
    g := Run(log, h).value.header;
  }

  /** The test says exactly when the machine is waiting for a number. */
  lemma {:induction false} SwallowedIffLost(log: seq<Facts>, h: nat)
    requires h <= |log| && Run(log, h).Ok?
    ensures Swallowed(log, h) <==> Lost(log, h)
    decreases h
  {
    if Swallowed(log, h) {
      var g := PendingFrom(log, h);
      SwallowedIffLost(log, g);
    } else if Lost(log, h) {
      var g: nat :| g < h - 1 && Named(log[g]) && Quiet(log, g, h - 1) && !Lost(log, g);
      OkBefore(log, g, h);
      SwallowedIffLost(log, g);
      MarkerArms(log, g, h - 1);
    }
  }

  /** Exactly which times are taken: those of the patterns whose header is not lost. */
  lemma CreditedIff(log: seq<Facts>, c: Credit)
    requires Run(log, |log|).Ok?
    ensures c in Run(log, |log|).value.credits <==> IsCredit(log, c) && !Lost(log, c.header)
  {
    if c in Run(log, |log|).value.credits {
      InvAlways(log, |log|);
      CreditedNotSwallowed(log, |log|, c);
      SwallowedIffLost(log, c.header);
    } else if IsCredit(log, c) {
      OkBefore(log, c.header, |log|);
      SwallowedIffLost(log, c.header);
      if !Lost(log, c.header) {
        PatternIsCredited(log, c, if Matches(log, c, c.line) then c.line else c.line - 1, |log|);
      }
    }
  }

  /** The header on line `h` opens a complete pattern. */
  ghost predicate Complete(log: seq<Facts>, h: nat) {
    exists c: Credit :: c.header == h && IsCredit(log, c)
  }

  /** Exactly when no time of the log is missed. */
  lemma NothingMissedIff(log: seq<Facts>)
    requires Run(log, |log|).Ok?
    ensures (forall c | IsCredit(log, c) :: c in Run(log, |log|).value.credits) <==>
            (forall h: nat | h < |log| && Complete(log, h) :: !Lost(log, h))
  {
    var credits := Run(log, |log|).value.credits;
    forall c | IsCredit(log, c) ensures c in credits <==> !Lost(log, c.header) {
      CreditedIff(log, c);
    }
    if forall c | IsCredit(log, c) :: c in credits {
      forall h: nat | h < |log| && Complete(log, h) ensures !Lost(log, h) {
        var c: Credit :| c.header == h && IsCredit(log, c);
      }
    }
    if forall h: nat | h < |log| && Complete(log, h) :: !Lost(log, h) {
      forall c | IsCredit(log, c) ensures c in credits {
        assert Complete(log, c.header);
      }
    }
  }

  // ---- logs that raise

  /** Behind the marker on line `f`, or at the front of the next line, stands a token that `float` refuses. */
  ghost predicate Refused(log: seq<Facts>, f: nat, token: string)
    requires f < |log|
  {
    log[f].inline == Bad(token) || (log[f].inline == Absent && f + 1 < |log| && log[f + 1].whole == Bad(token))
  }

  /** Where the number for the header on line `g` should be, there is such a token. */
  ghost predicate Unreadable(log: seq<Facts>, g: nat, f: nat, token: string) {
    && g < f < |log| && Named(log[g]) && !Lost(log, g) && Quiet(log, g, f)
    && !log[f].header && log[f].final && Refused(log, f, token)
  }

  ghost predicate Raises(log: seq<Facts>) {
    exists g, f, token :: Unreadable(log, g, f, token)
  }

  /** Exactly when parsing ends in an error, which then names such a token. */
  lemma RaisesIff(log: seq<Facts>)
    ensures Outcome(log).Err? <==> Raises(log)
    ensures Outcome(log).Err? ==> exists g, f :: Unreadable(log, g, f, Outcome(log).error.token)
  {
    if Run(log, |log|).Err? {
      var g, f := ErrorHasCause(log, |log|);
    }
    if g, f, token :| Unreadable(log, g, f, token) {
      CauseRaises(log, g, f, token);
    }
  }

  lemma {:induction false} ErrorHasCause(log: seq<Facts>, n: nat) returns (g: nat, f: nat)
    requires n <= |log| && Run(log, n).Err?
    ensures Unreadable(log, g, f, Run(log, n).error.token)
  {
    if Run(log, n - 1).Err? {
      g, f := ErrorHasCause(log, n - 1);
    } else {
      var c := Run(log, n - 1).value;
      InvAlways(log, n - 1);
      HeaderAccepted(log, n - 1);
      SwallowedIffLost(log, c.header);
      g, f := c.header, if c.s.grab then n - 2 else n - 1;
    }
  }

  lemma CauseRaises(log: seq<Facts>, g: nat, f: nat, token: string)
    requires Unreadable(log, g, f, token)
    ensures Run(log, |log|).Err?
  {
    if Run(log, |log|).Ok? {
      OkBefore(log, g, |log|);
      OkBefore(log, f, |log|);
      OkBefore(log, f + 1, |log|);
      SwallowedIffLost(log, g);
      Waits(log, g, f);
      if f + 1 < |log| { OkBefore(log, f + 2, |log|); }
      assert false;
    }
  }
}
