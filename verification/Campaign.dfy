/** The measurement campaign (DAAT-MCS_profiler.py, `main`): the list of configurations that generation
    leaves (test_engine.py), the image and port lists, and the bounded retry loop.  Building, flashing,
    logging and waiting are replaced by an oracle that says, for the n-th attempt of the whole campaign,
    whether the test completed. */
module Campaign {
  import opened Lists
  import opened Wrappers

  const MAX_RETRIES := 10

  /** An entry of `setups_configs`, with what generation makes of it: the names of the guest combinations,
      and the text each colouring and bandwidth variant adds to a name, in order. */
  datatype SetupConfig = SetupConfig(setup: string, bases: seq<string>, tails: seq<string>, logPorts: seq<string>)

  datatype Failure = NoSuchSetup(setup: string) | NoImages

  // ---- test generation (test_engine.py)

  /** A configuration name, and the setup whose generation listed it. */
  datatype Listed = Listed(name: string, setup: string)

  function Combined(c: SetupConfig, n: nat): (r: seq<Listed>)
    requires n <= |c.bases|
    ensures |r| == n
  {
    seq(n, i requires 0 <= i < n => Listed(c.bases[i], c.setup))
  }

  function NamesOf(list: seq<Listed>): seq<string> {
    seq(|list|, i requires 0 <= i < |list| => list[i].name)
  }

  /** The keys of a dictionary filled in this order. */
  function WithoutRepeats(names: seq<string>): seq<string> {
    if names == [] then []
    else
      var init, last := names[..|names| - 1], names[|names| - 1];
      WithoutRepeats(init) + (if last in init then [] else [last])
  }

  function VariantsOf(name: string, tails: seq<string>, n: nat, setup: string): (r: seq<Listed>)
    requires n <= |tails|
    ensures |r| == n
    ensures forall i | 0 <= i < n :: r[i] == Listed(name + tails[i], setup)
  {
    seq(n, i requires 0 <= i < n => Listed(name + tails[i], setup))
  }

  function Variants(names: seq<string>, tails: seq<string>, setup: string): seq<Listed> {
    if names == [] then []
    else Variants(names[..|names| - 1], tails, setup) + VariantsOf(names[|names| - 1], tails, |tails|, setup)
  }

  /** The names one generation gives to the combinations of a setup.  They are taken from the front of a
      list that still begins with what the previous generation left. */
  function KeyNames(before: seq<string>, c: SetupConfig): seq<string> {
    WithoutRepeats((before + c.bases)[..|c.bases|])
  }

  /** The list of configurations after generating one setup. */
  function Generate(before: seq<Listed>, c: SetupConfig): seq<Listed> {
    Variants(KeyNames(NamesOf(before), c), c.tails, c.setup)
  }

  /** The first configuration entry for a setup. */
  function FirstFor(configs: seq<SetupConfig>, setup: string): (r: Option<SetupConfig>)
    ensures r.Some? ==> r.value.setup == setup
  {
    if configs == [] then None
    else if configs[0].setup == setup then Some(configs[0])
    else FirstFor(configs[1..], setup)
  }

  ghost predicate IsFirst(configs: seq<SetupConfig>, setup: string, k: nat) {
    k < |configs| && configs[k].setup == setup && forall j | 0 <= j < k :: configs[j].setup != setup
  }

  /** It is the first entry of that name, and missing exactly when there is none. */
  lemma {:induction false} FirstForMeaning(configs: seq<SetupConfig>, setup: string)
    ensures FirstFor(configs, setup).None? <==> forall k | 0 <= k < |configs| :: configs[k].setup != setup
    ensures FirstFor(configs, setup).Some? ==>
              exists k: nat :: IsFirst(configs, setup, k) && FirstFor(configs, setup) == Some(configs[k])
  {
    if configs != [] && configs[0].setup == setup {
      assert IsFirst(configs, setup, 0);
    } else if configs != [] {
      FirstForMeaning(configs[1..], setup);
      assert forall k | 1 <= k < |configs| :: configs[k] == configs[1..][k - 1];
      if FirstFor(configs, setup).Some? {
        var k: nat :| IsFirst(configs[1..], setup, k) && FirstFor(configs, setup) == Some(configs[1..][k]);
        assert IsFirst(configs, setup, k + 1);
      }
    }
  }

  ghost predicate AllConfigured(configs: seq<SetupConfig>, setups: seq<string>) {
    forall s | s in setups :: FirstFor(configs, s).Some?
  }

  /** After generating all the setups in turn. */
  function GenerateAll(configs: seq<SetupConfig>, setups: seq<string>): seq<Listed> {
    if setups == [] then []
    else
      var before, c := GenerateAll(configs, setups[..|setups| - 1]), FirstFor(configs, setups[|setups| - 1]);
      if c.None? then before else Generate(before, c.value)
  }

  /** A test on the last setup's entry. */
  ghost predicate ListsNothing(configs: seq<SetupConfig>, setups: seq<string>)
    requires AllConfigured(configs, setups)
  {
    setups == [] ||
    var c := FirstFor(configs, setups[|setups| - 1]); c.Some? && (c.value.bases == [] || c.value.tails == [])
  }

  class Engine {
    var listConfigs: seq<Listed>

    constructor ()
      ensures listConfigs == []
    {
      listConfigs := [];
    }

    /** `combine_guests` extends the list by the names of the combinations. */
    method CombineGuests(c: SetupConfig)
      modifies this
      ensures listConfigs == old(listConfigs) + Combined(c, |c.bases|)
    {
      ghost var before := listConfigs;
      for i := 0 to |c.bases|
        invariant listConfigs == before + Combined(c, i)
      {
        listConfigs := listConfigs + [Listed(c.bases[i], c.setup)];
      }
    }

    /** `generate_configs` names `n` configurations from the front of the list; they are the keys of a
        dictionary. */
    method GenerateConfigs(n: nat) returns (names: seq<string>)
      requires n <= |listConfigs|
      ensures names == WithoutRepeats(NamesOf(listConfigs)[..n])
    {
      names := [];
      ghost var all := NamesOf(listConfigs)[..n];
      for i := 0 to n
        invariant names == WithoutRepeats(all[..i])
        invariant forall s :: s in names <==> s in all[..i]
      {
        assert all[..i + 1][..i] == all[..i] && all[..i + 1] == all[..i] + [all[i]];
        if listConfigs[i].name !in names {
          names := names + [listConfigs[i].name];
        }
      }
      assert all[..n] == all;
    }

    /** `generate_interference_mitigation_configurations` starts the list afresh. */
    method Mitigate(names: seq<string>, c: SetupConfig)
      modifies this
      ensures listConfigs == Variants(names, c.tails, c.setup)
    {
      listConfigs := [];
      for k := 0 to |names|
        invariant listConfigs == Variants(names[..k], c.tails, c.setup)
      {
        ghost var done := listConfigs;
        for i := 0 to |c.tails|
          invariant listConfigs == done + VariantsOf(names[k], c.tails, i, c.setup)
        {
          listConfigs := listConfigs + [Listed(names[k] + c.tails[i], c.setup)];
        }
        assert names[..k + 1][..k] == names[..k];
      }
      assert names[..|names|] == names;
    }

    /** One setup. */
    method GenerateTests(c: SetupConfig)
      modifies this
      ensures listConfigs == Generate(old(listConfigs), c)
    {
      CombineGuests(c);
      assert NamesOf(listConfigs) == NamesOf(old(listConfigs)) + c.bases;
      var names := GenerateConfigs(|c.bases|);
      Mitigate(names, c);
    }
  }

  method FindConfig(configs: seq<SetupConfig>, setup: string) returns (r: Option<SetupConfig>)
    ensures r == FirstFor(configs, setup)
  {
    for i := 0 to |configs|
      invariant FirstFor(configs, setup) == FirstFor(configs[i..], setup)
    {
      if configs[i].setup == setup {
        return Some(configs[i]);
      }
    }
    r := None;
  }

  lemma NextSetup(configs: seq<SetupConfig>, setups: seq<string>, i: nat, c: SetupConfig)
    requires i < |setups| && FirstFor(configs, setups[i]) == Some(c)
    ensures GenerateAll(configs, setups[..i + 1]) == Generate(GenerateAll(configs, setups[..i]), c)
    ensures AllConfigured(configs, setups[..i]) ==> AllConfigured(configs, setups[..i + 1])
  {
    assert setups[..i + 1][..i] == setups[..i] && setups[..i + 1] == setups[..i] + [setups[i]];
  }

  /** The test-generation loop reads a key of the matching entry, so a setup without one ends the run. */
  method GenerateSetups(engine: Engine, configs: seq<SetupConfig>, setups: seq<string>) returns (r: Result<(), Failure>)
    requires engine.listConfigs == []
    modifies engine
    ensures r.Ok? <==> AllConfigured(configs, setups)
    ensures r.Ok? ==> engine.listConfigs == GenerateAll(configs, setups)
    ensures r.Err? ==> r.error.NoSuchSetup? && r.error.setup in setups && FirstFor(configs, r.error.setup).None?
  {
    for i := 0 to |setups|
      invariant AllConfigured(configs, setups[..i])
      invariant engine.listConfigs == GenerateAll(configs, setups[..i])
    {
      var cfg := FindConfig(configs, setups[i]);
      if cfg.None? {
        return Err(NoSuchSetup(setups[i]));
      }
      engine.GenerateTests(cfg.value);
      NextSetup(configs, setups, i, cfg.value);
    }
    assert setups[..|setups|] == setups;
    r := Ok(());
  }

  // ---- image and port lists

  /** One block per setup, whatever the setup is. */
  function PerSetup<T>(setups: seq<string>, block: seq<T>): seq<T> {
    if setups == [] then [] else PerSetup(setups[..|setups| - 1], block) + block
  }

  /** The image name of a configuration: the part of its name from the benchmark on. */
  type Renaming = string -> string

  function ImagesOf(list: seq<Listed>, rename: Renaming): seq<string> {
    seq(|list|, i requires 0 <= i < |list| => rename(list[i].name) + ".img")
  }

  function Repeat<T>(x: T, n: nat): seq<T> {
    if n == 0 then [] else Repeat(x, n - 1) + [x]
  }

  /** The port lists appended in the pass of one setup: nothing at all when no entry matches. */
  function PortsFor(configs: seq<SetupConfig>, setup: string, n: nat): seq<seq<string>> {
    var c := FirstFor(configs, setup);
    if c.Some? then Repeat(c.value.logPorts, n) else []
  }

  function Ports(configs: seq<SetupConfig>, setups: seq<string>, n: nat): seq<seq<string>> {
    if setups == [] then [] else Ports(configs, setups[..|setups| - 1], n) + PortsFor(configs, setups[|setups| - 1], n)
  }

  method BuildLists(configs: seq<SetupConfig>, setups: seq<string>, list: seq<Listed>, rename: Renaming)
    returns (imgs: seq<string>, ports: seq<seq<string>>)
    ensures imgs == PerSetup(setups, ImagesOf(list, rename))
    ensures ports == Ports(configs, setups, |list|)
  {
    imgs, ports := [], [];
    ghost var block := ImagesOf(list, rename);
    for i := 0 to |setups|
      invariant imgs == PerSetup(setups[..i], block)
      invariant ports == Ports(configs, setups[..i], |list|)
    {
      ghost var imgs0, ports0 := imgs, ports;
      for j := 0 to |list|
        invariant imgs == imgs0 + block[..j]
        invariant ports == ports0 + PortsFor(configs, setups[i], j)
      {
        imgs := imgs + [rename(list[j].name) + ".img"];
        var cfg := FindConfig(configs, setups[i]);
        if cfg.Some? {
          ports := ports + [cfg.value.logPorts];
        }
      }
      assert block[..|list|] == block;
      assert setups[..i + 1][..i] == setups[..i];
    }
    assert setups[..|setups|] == setups;
  }

  // ---- the retry loop

  type Oracle = nat -> bool

  /** `at` is the number of the last attempt, which fixes the start time that is recorded. */
  datatype Timing = Finished(at: int) | NotAvailable(at: int)

  datatype Summary = Summary(timings: map<string, Timing>, completed: seq<string>, attempts: nat)

  /** How many attempts an image gets when the campaign has made `start` attempts and `left` are allowed. */
  function Tries(outcome: Oracle, start: nat, left: nat): nat
    decreases left
  {
    if left == 0 then 0 else if outcome(start) then 1 else 1 + Tries(outcome, start + 1, left - 1)
  }

  predicate Succeeds(outcome: Oracle, start: nat, left: nat)
    decreases left
  {
    left > 0 && (outcome(start) || Succeeds(outcome, start + 1, left - 1))
  }

  /** What happens to one image that has `left` attempts left. */
  function ProcessFrom(s: Summary, img: string, outcome: Oracle, left: nat): Summary
    decreases left
  {
    if left == 0 then s.(timings := s.timings[img := NotAvailable(s.attempts - 1)])
    else if outcome(s.attempts) then
      Summary(s.timings[img := Finished(s.attempts)], s.completed + [img], s.attempts + 1)
    else ProcessFrom(s.(attempts := s.attempts + 1), img, outcome, left - 1)
  }

  function Process(s: Summary, img: string, outcome: Oracle, limit: nat): Summary {
    ProcessFrom(s, img, outcome, limit)
  }

  function After(imgs: seq<string>, outcome: Oracle, limit: nat): Summary {
    if imgs == [] then Summary(map[], [], 0)
    else Process(After(imgs[..|imgs| - 1], outcome, limit), imgs[|imgs| - 1], outcome, limit)
  }

  class Runner {
    var timings: map<string, Timing>
    var completed: seq<string>
    var attempts: nat
    var resets: nat
    var poweredOff: bool

    constructor ()
      ensures timings == map[] && completed == [] && attempts == 0 && resets == 0 && !poweredOff
    {
      timings, completed, attempts, resets, poweredOff := map[], [], 0, 0, false;
    }

    function Now(): Summary
      reads this
    {
      Summary(timings, completed, attempts)
    }

    /** One image: attempts until the test completes or all the attempts have failed. */
    method RunImage(img: string, outcome: Oracle, maxRetries: nat)
      modifies this
      ensures Now() == Process(old(Now()), img, outcome, maxRetries)
      ensures resets - old(resets) == attempts - old(attempts)
      ensures poweredOff == old(poweredOff)
    {
      var success, retries := false, 0;
      ghost var base := Now();
      while !success && retries < maxRetries
        invariant retries <= maxRetries && (success ==> retries < maxRetries)
        invariant resets - old(resets) == attempts - base.attempts
        invariant poweredOff == old(poweredOff)
        invariant Process(base, img, outcome, maxRetries) ==
                  if success then Now() else ProcessFrom(Now(), img, outcome, maxRetries - retries)
        decreases maxRetries - retries, !success
      {
        var testCompleted := outcome(attempts);
        attempts := attempts + 1;
        if testCompleted {
          timings := timings[img := Finished(attempts - 1)];
          completed := completed + [img];
          resets := resets + 1;
          success := true;
        } else {
          resets := resets + 1;
          retries := retries + 1;
        }
      }
      if retries == maxRetries {
        timings := timings[img := NotAvailable(attempts - 1)];
      }
    }

    /** The whole campaign.  The final status line uses the loop variable, so an empty image list ends in
        an error before the board is switched off. */
    method Run(imgs: seq<string>, ports: seq<seq<string>>, outcome: Oracle) returns (r: Result<(), Failure>)
      requires |ports| == |imgs|
      requires timings == map[] && completed == [] && attempts == 0 && resets == 0 && !poweredOff
      modifies this
      ensures Now() == After(imgs, outcome, MAX_RETRIES)
      ensures resets == attempts + 1
      ensures r == (if imgs == [] then Err(NoImages) else Ok(()))
      ensures poweredOff <==> imgs != []
    {
      resets := resets + 1;
      for i := 0 to |imgs|
        invariant Now() == After(imgs[..i], outcome, MAX_RETRIES)
        invariant resets == attempts + 1
        invariant !poweredOff
      {
        RunImage(imgs[i], outcome, MAX_RETRIES);
        assert imgs[..i + 1][..i] == imgs[..i];
      }
      assert imgs[..|imgs|] == imgs;
      if |imgs| == 0 {
        return Err(NoImages);
      }
      poweredOff := true;
      r := Ok(());
    }
  }

  /** The whole program: generation, the two lists, and the campaign, which never lacks a port list. */
  method RunCampaign(configs: seq<SetupConfig>, setups: seq<string>, rename: Renaming, outcome: Oracle)
    returns (r: Result<(), Failure>, runner: Runner)
    ensures fresh(runner)
    ensures r.Ok? <==> AllConfigured(configs, setups) && !ListsNothing(configs, setups)
    ensures r.Ok? ==>
              var imgs := PerSetup(setups, ImagesOf(GenerateAll(configs, setups), rename));
              && runner.Now() == After(imgs, outcome, MAX_RETRIES)
              && runner.resets == runner.attempts + 1 && runner.poweredOff
  {
    runner := new Runner();
    var engine := new Engine();
    r := GenerateSetups(engine, configs, setups);
    if r.Err? {
      return;
    }
    var imgs, ports := BuildLists(configs, setups, engine.listConfigs, rename);
    PortsMatchImages(configs, setups, ImagesOf(engine.listConfigs, rename));
    PerSetupEmpty(setups, ImagesOf(engine.listConfigs, rename));
    ListsNothingIff(configs, setups);
    r := runner.Run(imgs, ports, outcome);
  }

  // ---- laws of generation

  /** Removing repeats keeps exactly the members, each once, in the order of their first occurrence: what is
      kept of a longer list begins with what is kept of its beginning. */
  lemma {:induction false} RepeatsRemoved(names: seq<string>, more: seq<string>)
    ensures Distinct(WithoutRepeats(names))
    ensures forall n :: n in WithoutRepeats(names) <==> n in names
    ensures WithoutRepeats(names) <= WithoutRepeats(names + more)
    decreases |names| + |more|
  {
    if more != [] {
      var m := |more| - 1;
      RepeatsRemoved(names, more[..m]);
      assert (names + more)[..|names + more| - 1] == names + more[..m];
    } else {
      assert names + more == names;
      if names != [] {
        var n := |names| - 1;
        RepeatsRemoved(names[..n], []);
        assert names == names[..n] + [names[n]];
      }
    }
  }

  /** The variants of a name stand together, in the order of the names. */
  lemma {:induction false} VariantsAt(names: seq<string>, tails: seq<string>, setup: string, k: nat, i: nat)
    requires k < |names| && i < |tails|
    ensures |Variants(names, tails, setup)| == |names| * |tails|
    ensures 0 <= k * |tails| + i < |names| * |tails|
    ensures Variants(names, tails, setup)[k * |tails| + i] == Listed(names[k] + tails[i], setup)
  {
    var n := |names| - 1;
    VariantsLength(names, tails, setup);
    VariantsLength(names[..n], tails, setup);
    BlockIndex(|names|, |tails|, k, i);
    if k < n { VariantsAt(names[..n], tails, setup, k, i); }
  }

  lemma {:induction false} VariantsLength(names: seq<string>, tails: seq<string>, setup: string)
    ensures |Variants(names, tails, setup)| == |names| * |tails|
  {
    if names != [] {
      var n := |names| - 1;
      VariantsLength(names[..n], tails, setup);
      assert (n + 1) * |tails| == n * |tails| + |tails|;
    }
  }

  /** Position `i` of block `k`, with blocks of size `m`. */
  lemma BlockIndex(n: nat, m: nat, k: nat, i: nat)
    requires k < n && i < m
    ensures 0 <= k * m + i < n * m
    ensures k == n - 1 ==> k * m + i == (n - 1) * m + i
    ensures k < n - 1 ==> k * m + i < (n - 1) * m
  {
    var d := n - 1 - k;
    assert n * m == k * m + d * m + m;
    assert d > 0 ==> d * m >= m;
    assert (n - 1) * m == k * m + d * m;
  }

  lemma {:induction false} VariantsTagged(names: seq<string>, tails: seq<string>, setup: string)
    ensures forall e | e in Variants(names, tails, setup) :: e.setup == setup
  {
    if names != [] { VariantsTagged(names[..|names| - 1], tails, setup); }
  }

  /** Generation keeps nothing of the earlier setups' configurations: all that is listed in the end was
      generated for the last setup. */
  lemma OnlyLastSetup(configs: seq<SetupConfig>, setups: seq<string>)
    requires AllConfigured(configs, setups) && setups != []
    ensures forall e | e in GenerateAll(configs, setups) :: e.setup == setups[|setups| - 1]
  {
    var m := |setups| - 1;
    assert setups[m] in setups;
    var c := FirstFor(configs, setups[m]).value;
    VariantsTagged(KeyNames(NamesOf(GenerateAll(configs, setups[..m])), c), c.tails, c.setup);
  }

  lemma {:induction false} RepeatsShorten(names: seq<string>)
    ensures |WithoutRepeats(names)| <= |names|
    ensures |WithoutRepeats(names)| == |names| ==> WithoutRepeats(names) == names
  {
    if names != [] {
      var n := |names| - 1;
      RepeatsShorten(names[..n]);
      assert names == names[..n] + [names[n]];
    }
  }

  lemma {:induction false} NothingRepeats(names: seq<string>)
    requires Distinct(names)
    ensures WithoutRepeats(names) == names
  {
    if names != [] {
      var n := |names| - 1;
      NothingRepeats(names[..n]);
      assert names == names[..n] + [names[n]];
    }
  }

  lemma SameBlock(x: string, y: string, tails: seq<string>, setup: string)
    requires tails != [] && VariantsOf(x, tails, |tails|, setup) == VariantsOf(y, tails, |tails|, setup)
    ensures x == y
  {
    var t := tails[0];
    assert VariantsOf(x, tails, |tails|, setup)[0].name == x + t &&
           VariantsOf(y, tails, |tails|, setup)[0].name == y + t;
    assert x == (x + t)[..|x + t| - |t|] && y == (y + t)[..|y + t| - |t|];
  }

  lemma {:induction false} VariantsInjective(a: seq<string>, b: seq<string>, tails: seq<string>, setup: string)
    requires tails != [] && Variants(a, tails, setup) == Variants(b, tails, setup)
    ensures a == b
  {
    if a != [] && b != [] {
      var n, m := |a| - 1, |b| - 1;
      var x, y := VariantsOf(a[n], tails, |tails|, setup), VariantsOf(b[m], tails, |tails|, setup);
      var p, q := Variants(a[..n], tails, setup), Variants(b[..m], tails, setup);
      assert (p + x)[|p + x| - |tails|..] == x && (q + y)[|q + y| - |tails|..] == y;
      assert (p + x)[..|p + x| - |tails|] == p && (q + y)[..|q + y| - |tails|] == q;
      SameBlock(a[n], b[m], tails, setup);
      VariantsInjective(a[..n], b[..m], tails, setup);
      assert a == a[..n] + [a[n]] && b == b[..m] + [b[m]];
    }
  }

  /** Exactly when a setup's configurations are listed under their own names, as if it were generated
      alone: when the front of the list, which begins with what the previous generation left, has the same
      names in the same order, repeats aside; or when there is no variant to list.  For combinations
      without repeated names, the front must be these names. */
  lemma OwnNamesIff(before: seq<Listed>, c: SetupConfig)
    ensures var front := (NamesOf(before) + c.bases)[..|c.bases|];
            && (Generate(before, c) == Generate([], c) <==>
                  c.tails == [] || WithoutRepeats(front) == WithoutRepeats(c.bases))
            && (Distinct(c.bases) ==> (WithoutRepeats(front) == WithoutRepeats(c.bases) <==> front == c.bases))
  {
    var front := (NamesOf(before) + c.bases)[..|c.bases|];
    assert (NamesOf([]) + c.bases)[..|c.bases|] == c.bases;
    if c.tails == [] {
      NoTails(WithoutRepeats(front), c.setup);
      NoTails(WithoutRepeats(c.bases), c.setup);
    } else if Generate(before, c) == Generate([], c) {
      VariantsInjective(WithoutRepeats(front), WithoutRepeats(c.bases), c.tails, c.setup);
    }
    if Distinct(c.bases) {
      NothingRepeats(c.bases);
      RepeatsShorten(front);
    }
  }

  lemma {:induction false} NoTails(names: seq<string>, setup: string)
    ensures Variants(names, [], setup) == []
  {
    if names != [] { NoTails(names[..|names| - 1], setup); }
  }

  lemma VariantsEmpty(names: seq<string>, tails: seq<string>, setup: string)
    ensures Variants(names, tails, setup) == [] <==> names == [] || tails == []
  {
    if tails == [] { NoTails(names, setup); }
  }

  lemma {:induction false} NoNames(names: seq<string>)
    ensures WithoutRepeats(names) == [] <==> names == []
  {
    if names != [] {
      var n := |names| - 1;
      if WithoutRepeats(names[..n]) == [] && n > 0 { NoNames(names[..n]); }
    }
  }

  /** Nothing is listed in the end exactly when there is no setup, or the last one has no combination or no
      variant. */
  lemma ListsNothingIff(configs: seq<SetupConfig>, setups: seq<string>)
    requires AllConfigured(configs, setups)
    ensures GenerateAll(configs, setups) == [] <==> ListsNothing(configs, setups)
  {
    if setups != [] {
      var m := |setups| - 1;
      assert setups[m] in setups;
      var c, before := FirstFor(configs, setups[m]).value, GenerateAll(configs, setups[..m]);
      NoNames((NamesOf(before) + c.bases)[..|c.bases|]);
      VariantsEmpty(KeyNames(NamesOf(before), c), c.tails, c.setup);
    }
  }

  // ---- laws of the lists

  lemma {:induction false} RepeatLength<T>(x: T, n: nat)
    ensures |Repeat(x, n)| == n
    ensures forall i | 0 <= i < n :: Repeat(x, n)[i] == x
  {
    if n > 0 { RepeatLength(x, n - 1); }
  }

  lemma {:induction false} PerSetupEmpty<T>(setups: seq<string>, block: seq<T>)
    ensures PerSetup(setups, block) == [] <==> setups == [] || block == []
  {
    if setups != [] { PerSetupEmpty(setups[..|setups| - 1], block); }
  }

  /** The image list repeats the generated images once per setup. */
  lemma {:induction false} ImagesAt<T>(setups: seq<string>, block: seq<T>, k: nat, i: nat)
    requires k < |setups| && i < |block|
    ensures |PerSetup(setups, block)| == |setups| * |block|
    ensures 0 <= k * |block| + i < |setups| * |block|
    ensures PerSetup(setups, block)[k * |block| + i] == block[i]
  {
    var n := |setups| - 1;
    PerSetupLength(setups, block);
    PerSetupLength(setups[..n], block);
    BlockIndex(|setups|, |block|, k, i);
    if k < n { ImagesAt(setups[..n], block, k, i); }
  }

  lemma {:induction false} PerSetupLength<T>(setups: seq<string>, block: seq<T>)
    ensures |PerSetup(setups, block)| == |setups| * |block|
  {
    if setups != [] {
      var n := |setups| - 1;
      PerSetupLength(setups[..n], block);
      assert (n + 1) * |block| == n * |block| + |block|;
    }
  }

  lemma {:induction false} PassesAt(setups: seq<string>, n: nat, k: nat, i: nat)
    requires k < |setups| && i < n
    ensures |Passes(setups, n)| == |setups| * n && 0 <= k * n + i < |setups| * n
    ensures Passes(setups, n)[k * n + i] == setups[k]
  {
    var m := |setups| - 1;
    PassesLength(setups, n);
    PassesLength(setups[..m], n);
    BlockIndex(|setups|, n, k, i);
    RepeatLength(setups[m], n);
    if k < m { PassesAt(setups[..m], n, k, i); }
  }

  lemma {:induction false} PassesLength(setups: seq<string>, n: nat)
    ensures |Passes(setups, n)| == |setups| * n
  {
    if setups != [] {
      var m := |setups| - 1;
      PassesLength(setups[..m], n);
      RepeatLength(setups[m], n);
      assert (m + 1) * n == m * n + n;
    }
  }

  /** The two lists position by position: in the pass of setup `k`, image `i` and the ports of that setup. */
  lemma ListsAt(configs: seq<SetupConfig>, setups: seq<string>, list: seq<Listed>, rename: Renaming, k: nat, i: nat)
    requires AllConfigured(configs, setups) && k < |setups| && i < |list|
    ensures var imgs, ports := PerSetup(setups, ImagesOf(list, rename)), Ports(configs, setups, |list|);
            && |imgs| == |ports| == |setups| * |list| && 0 <= k * |list| + i < |imgs|
            && imgs[k * |list| + i] == rename(list[i].name) + ".img"
            && IsPortsOf(configs, setups[k], ports[k * |list| + i])
  {
    ImagesAt(setups, ImagesOf(list, rename), k, i);
    PassesAt(setups, |list|, k, i);
    PortsMatchImages(configs, setups, ImagesOf(list, rename));
  }

  /** The setup in whose pass each image of the list was appended. */
  function Passes(setups: seq<string>, n: nat): seq<string> {
    if setups == [] then [] else Passes(setups[..|setups| - 1], n) + Repeat(setups[|setups| - 1], n)
  }

  /** Once every setup has an entry, the port list is as long as the image list, and the ports beside an
      image are those of the setup in whose pass it was appended. */
  lemma {:induction false} PortsMatchImages<T>(configs: seq<SetupConfig>, setups: seq<string>, block: seq<T>)
    requires AllConfigured(configs, setups)
    ensures |Ports(configs, setups, |block|)| == |PerSetup(setups, block)| == |Passes(setups, |block|)|
    ensures forall p | 0 <= p < |Passes(setups, |block|)| ::
              && FirstFor(configs, Passes(setups, |block|)[p]).Some?
              && Ports(configs, setups, |block|)[p] == FirstFor(configs, Passes(setups, |block|)[p]).value.logPorts
  {
    var n := |block|;
    if setups != [] {
      var m := |setups| - 1;
      var init, last := setups[..m], setups[m];
      assert setups == init + [last];
      assert last in setups;
      assert forall s | s in init :: s in setups;
      PortsMatchImages(configs, init, block);
      RepeatLength(last, n);
      RepeatLength(FirstFor(configs, last).value.logPorts, n);
    }
  }

  /** Every image stands beside the ports of the setup it was generated for. */
  ghost predicate OwnPorts(configs: seq<SetupConfig>, setups: seq<string>, list: seq<Listed>) {
    Paired(configs, Ports(configs, setups, |list|), PerSetup(setups, list))
  }

  predicate IsPortsOf(configs: seq<SetupConfig>, setup: string, ports: seq<string>) {
    var c := FirstFor(configs, setup);
    c.Some? && c.value.logPorts == ports
  }

  ghost predicate Paired(configs: seq<SetupConfig>, ports: seq<seq<string>>, images: seq<Listed>) {
    |ports| == |images| && forall p | 0 <= p < |images| :: IsPortsOf(configs, images[p].setup, ports[p])
  }

  /** All these setups have the log ports of `origin`. */
  ghost predicate SamePorts(configs: seq<SetupConfig>, setups: seq<string>, origin: string)
    requires AllConfigured(configs, setups)
  {
    forall s | s in setups :: IsPortsOf(configs, origin, FirstFor(configs, s).value.logPorts)
  }

  lemma SamePortsSnoc(configs: seq<SetupConfig>, init: seq<string>, last: string, origin: string)
    requires AllConfigured(configs, init + [last])
    ensures AllConfigured(configs, init) && FirstFor(configs, last).Some?
    ensures SamePorts(configs, init + [last], origin) <==>
            SamePorts(configs, init, origin) && IsPortsOf(configs, origin, FirstFor(configs, last).value.logPorts)
  {
    assert last in init + [last];
    assert forall s | s in init :: s in init + [last];
  }

  /** Exactly when that is so for the whole campaign: nothing is listed, or all setups have the log ports of
      the last one. */
  lemma OwnPortsIff(configs: seq<SetupConfig>, setups: seq<string>)
    requires AllConfigured(configs, setups)
    ensures OwnPorts(configs, setups, GenerateAll(configs, setups)) <==>
            ListsNothing(configs, setups) || SamePorts(configs, setups, setups[|setups| - 1])
  {
    ListsNothingIff(configs, setups);
    if setups != [] {
      OnlyLastSetup(configs, setups);
      BlockPorts(configs, setups, GenerateAll(configs, setups), setups[|setups| - 1]);
    }
  }

  lemma {:induction false} BlockPorts(configs: seq<SetupConfig>, setups: seq<string>, list: seq<Listed>, origin: string)
    requires AllConfigured(configs, setups) && forall e | e in list :: e.setup == origin
    ensures |Ports(configs, setups, |list|)| == |PerSetup(setups, list)|
    ensures forall e | e in PerSetup(setups, list) :: e.setup == origin
    ensures OwnPorts(configs, setups, list) <==>
            list == [] || SamePorts(configs, setups, origin)
  {
    if setups != [] {
      var m := |setups| - 1;
      var init, last := setups[..m], setups[m];
      assert setups == init + [last];
      SamePortsSnoc(configs, init, last, origin);
      BlockPorts(configs, init, list, origin);
      LastBlock(configs, Ports(configs, init, |list|), PerSetup(init, list), FirstFor(configs, last).value.logPorts,
                list, origin);
    }
  }

  lemma LastBlock(configs: seq<SetupConfig>, x: seq<seq<string>>, y: seq<Listed>, ports: seq<string>,
                  list: seq<Listed>, origin: string)
    requires |x| == |y| && forall e | e in list :: e.setup == origin
    ensures |x + Repeat(ports, |list|)| == |y + list|
    ensures Paired(configs, x + Repeat(ports, |list|), y + list) <==>
            Paired(configs, x, y) && (list == [] || IsPortsOf(configs, origin, ports))
  {
    RepeatLength(ports, |list|);
    var x', y' := x + Repeat(ports, |list|), y + list;
    if Paired(configs, x', y') {
      forall p | 0 <= p < |y| ensures IsPortsOf(configs, y[p].setup, x[p]) {
        assert IsPortsOf(configs, y'[p].setup, x'[p]);
      }
      if list != [] {
        assert IsPortsOf(configs, y'[|y|].setup, x'[|x|]);
        assert y'[|y|] == list[0] && x'[|x|] == Repeat(ports, |list|)[0];
      }
    } else {
      var p :| 0 <= p < |y'| && !IsPortsOf(configs, y'[p].setup, x'[p]);
      if p < |y| {
        assert !IsPortsOf(configs, y[p].setup, x[p]);
      } else {
        assert y'[p] == list[p - |y|] && list[p - |y|] in list;
      }
    }
  }

  /** Two setups with one configuration each, and different ports: what is listed for both was generated
      for the second, under the first one's name, and its first listing stands beside the first one's ports. */
  lemma SecondSetupMixedUp(a: SetupConfig, b: SetupConfig)
    requires a.setup != b.setup && a.logPorts != b.logPorts
    requires |a.bases| == |b.bases| == 1 && a.tails == b.tails == [""]
    ensures GenerateAll([a, b], [a.setup, b.setup]) == [Listed(a.bases[0], b.setup)]
    ensures Ports([a, b], [a.setup, b.setup], 1) == [a.logPorts, b.logPorts]
    ensures !OwnPorts([a, b], [a.setup, b.setup], GenerateAll([a, b], [a.setup, b.setup]))
  {
    var configs, setups := [a, b], [a.setup, b.setup];
    FirstOfTwo(a, b);
    GenerateTwo(configs, a, b);
    OneName([], a, a.bases[0]);
    OneName([Listed(a.bases[0], a.setup)], b, a.bases[0]);
    PortsOfTwo(configs, a, b);
    OwnPortsIff(configs, setups);
    assert a.setup in setups;
  }

  lemma FirstOfTwo(a: SetupConfig, b: SetupConfig)
    requires a.setup != b.setup
    ensures FirstFor([a, b], a.setup) == Some(a) && FirstFor([a, b], b.setup) == Some(b)
    ensures AllConfigured([a, b], [a.setup, b.setup])
  {
    assert [a, b][1..] == [b];
  }

  lemma GenerateTwo(configs: seq<SetupConfig>, a: SetupConfig, b: SetupConfig)
    requires FirstFor(configs, a.setup) == Some(a) && FirstFor(configs, b.setup) == Some(b)
    ensures GenerateAll(configs, [a.setup, b.setup]) == Generate(Generate([], a), b)
  {
    var setups := [a.setup, b.setup];
    NextSetup(configs, setups, 0, a);
    NextSetup(configs, setups, 1, b);
    assert setups[..2] == setups && setups[..0] == [];
  }

  lemma PortsOfTwo(configs: seq<SetupConfig>, a: SetupConfig, b: SetupConfig)
    requires FirstFor(configs, a.setup) == Some(a) && FirstFor(configs, b.setup) == Some(b)
    ensures Ports(configs, [a.setup, b.setup], 1) == [a.logPorts, b.logPorts]
  {
    var setups := [a.setup, b.setup];
    RepeatOnce(a.logPorts);
    RepeatOnce(b.logPorts);
    assert setups[..1] == [a.setup] && setups[..1][..0] == [];
    assert Ports(configs, setups[..1], 1) == [a.logPorts];
  }

  lemma RepeatOnce<T>(x: T)
    ensures Repeat(x, 1) == [x]
  {
    assert Repeat(x, 0) == [];
  }

  lemma OnlyName(name: string)
    ensures WithoutRepeats([name]) == [name]
  {
    assert [name][..0] == [];
  }

  lemma OneVariant(name: string, tail: string, setup: string)
    ensures Variants([name], [tail], setup) == [Listed(name + tail, setup)]
  {
    assert [name][..0] == [];
    assert Variants([], [tail], setup) == [];
  }

  lemma OneName(before: seq<Listed>, c: SetupConfig, name: string)
    requires |c.bases| == 1 && c.tails == [""]
    requires name == (if before == [] then c.bases[0] else before[0].name)
    ensures Generate(before, c) == [Listed(name, c.setup)]
  {
    assert (NamesOf(before) + c.bases)[..1] == [name];
    OnlyName(name);
    OneVariant(name, "", c.setup);
    assert name + "" == name;
  }

  /** Without the check in the generation loop the lists could part: an unmatched setup adds images and no
      ports, so the lengths agree exactly when every setup has an entry (or there are no images at all). */
  lemma {:induction false} PortsMatchIff<T>(configs: seq<SetupConfig>, setups: seq<string>, block: seq<T>)
    ensures |Ports(configs, setups, |block|)| <= |PerSetup(setups, block)|
    ensures |Ports(configs, setups, |block|)| == |PerSetup(setups, block)| <==>
            block == [] || AllConfigured(configs, setups)
  {
    var n := |block|;
    if setups != [] {
      var m := |setups| - 1;
      var init, last := setups[..m], setups[m];
      assert setups == init + [last];
      assert last in setups;
      assert forall s | s in init :: s in setups;
      PortsMatchIff(configs, init, block);
      if FirstFor(configs, last).Some? {
        RepeatLength(FirstFor(configs, last).value.logPorts, n);
      }
      assert AllConfigured(configs, setups) <==> AllConfigured(configs, init) && FirstFor(configs, last).Some?;
    }
  }

  // ---- laws of the campaign

  /** The attempts of one image: at least one and at most `left`; all but the last fail; the last one
      succeeds exactly when the image does, and an image that fails has used all of them. */
  lemma {:induction false} TriesFacts(outcome: Oracle, start: nat, left: nat)
    requires left > 0
    ensures 1 <= Tries(outcome, start, left) <= left
    ensures forall k: nat | start <= k < start + Tries(outcome, start, left) - 1 :: !outcome(k)
    ensures outcome(start + Tries(outcome, start, left) - 1) <==> Succeeds(outcome, start, left)
    ensures !Succeeds(outcome, start, left) ==> Tries(outcome, start, left) == left
    ensures Succeeds(outcome, start, left) <==> exists k: nat :: start <= k < start + left && outcome(k)
    decreases left
  {
    if !outcome(start) && left > 1 {
      TriesFacts(outcome, start + 1, left - 1);
      if k: nat :| start <= k < start + left && outcome(k) { assert start + 1 <= k; }
    }
  }

  /** The step of one image, in terms of its attempts. */
  lemma {:induction false} ProcessMeaning(s: Summary, img: string, outcome: Oracle, left: nat)
    ensures var last := s.attempts + Tries(outcome, s.attempts, left);
            ProcessFrom(s, img, outcome, left) ==
              if Succeeds(outcome, s.attempts, left)
              then Summary(s.timings[img := Finished(last - 1)], s.completed + [img], last)
              else Summary(s.timings[img := NotAvailable(last - 1)], s.completed, last)
    decreases left
  {
    if left > 0 && !outcome(s.attempts) {
      ProcessMeaning(s.(attempts := s.attempts + 1), img, outcome, left - 1);
    }
  }

  /** Number of attempts made before image `i`, and whether that image completed. */
  function StartOf(imgs: seq<string>, outcome: Oracle, limit: nat, i: nat): nat
    requires i <= |imgs|
  {
    After(imgs[..i], outcome, limit).attempts
  }

  predicate Completed(imgs: seq<string>, outcome: Oracle, limit: nat, i: nat)
    requires i < |imgs|
  {
    Succeeds(outcome, StartOf(imgs, outcome, limit, i), limit)
  }

  lemma StartOfNext(imgs: seq<string>, outcome: Oracle, limit: nat, i: nat)
    requires i < |imgs|
    ensures StartOf(imgs, outcome, limit, i + 1) == StartOf(imgs, outcome, limit, i) +
            Tries(outcome, StartOf(imgs, outcome, limit, i), limit)
  {
    assert imgs[..i + 1][..i] == imgs[..i];
    ProcessMeaning(After(imgs[..i], outcome, limit), imgs[i], outcome, limit);
  }

  /** Every image gets between one attempt and the limit, in its own stretch of the campaign, ending in one
      success or in exactly as many failures as the limit. */
  lemma ImageAttempts(imgs: seq<string>, outcome: Oracle, limit: nat, i: nat)
    requires i < |imgs| && limit > 0
    ensures var a, b := StartOf(imgs, outcome, limit, i), StartOf(imgs, outcome, limit, i + 1);
            && a + 1 <= b <= a + limit
            && (forall k: nat | a <= k < b - 1 :: !outcome(k))
            && (outcome(b - 1) <==> Completed(imgs, outcome, limit, i))
            && (!Completed(imgs, outcome, limit, i) ==> b == a + limit)
            && (limit == MAX_RETRIES ==> b <= a + 10 && (!Completed(imgs, outcome, limit, i) ==> b == a + 10))
  {
    StartOfNext(imgs, outcome, limit, i);
    var a, b := StartOf(imgs, outcome, limit, i), StartOf(imgs, outcome, limit, i + 1);
    TriesFacts(outcome, a, limit);
  }

  function Flags(imgs: seq<string>, outcome: Oracle, limit: nat, n: nat): seq<bool>
    requires n <= |imgs|
  {
    seq(n, i requires 0 <= i < n => Completed(imgs, outcome, limit, i))
  }

  /** The positions of the completed images among the first `n`. */
  function CompletedIndices(imgs: seq<string>, outcome: Oracle, limit: nat, n: nat): (r: seq<nat>)
    requires n <= |imgs|
    ensures forall k | 0 <= k < |r| :: r[k] < n
  {
    var r := Indices(Flags(imgs, outcome, limit, n));
    assert forall k | 0 <= k < |r| :: r[k] in r;
    r
  }

  function Pick(imgs: seq<string>, at: seq<nat>): seq<string>
    requires forall k | 0 <= k < |at| :: at[k] < |imgs|
  {
    seq(|at|, k requires 0 <= k < |at| => imgs[at[k]])
  }

  lemma {:induction false} CompletedUpTo(imgs: seq<string>, outcome: Oracle, limit: nat, n: nat)
    requires n <= |imgs|
    ensures After(imgs[..n], outcome, limit).completed == Pick(imgs, CompletedIndices(imgs, outcome, limit, n))
  {
    if n > 0 {
      CompletedUpTo(imgs, outcome, limit, n - 1);
      assert imgs[..n][..n - 1] == imgs[..n - 1];
      ProcessMeaning(After(imgs[..n - 1], outcome, limit), imgs[n - 1], outcome, limit);
      assert Flags(imgs, outcome, limit, n)[..n - 1] == Flags(imgs, outcome, limit, n - 1);
    }
  }

  /** The list of completed images is the in-order subsequence of the images that completed. */
  lemma CompletedInOrder(imgs: seq<string>, outcome: Oracle, limit: nat)
    ensures var r := CompletedIndices(imgs, outcome, limit, |imgs|);
            && (forall a, b | 0 <= a < b < |r| :: r[a] < r[b])
            && (forall i: nat :: i in r <==> i < |imgs| && Completed(imgs, outcome, limit, i))
            && After(imgs, outcome, limit).completed == Pick(imgs, r)
  {
    forall i: nat
      ensures i in CompletedIndices(imgs, outcome, limit, |imgs|) <==> i < |imgs| && Completed(imgs, outcome, limit, i)
    {
      assert i < |imgs| ==> Flags(imgs, outcome, limit, |imgs|)[i] == Completed(imgs, outcome, limit, i);
    }
    CompletedUpTo(imgs, outcome, limit, |imgs|);
    assert imgs[..|imgs|] == imgs;
  }

  lemma {:induction false} TimingKeys(imgs: seq<string>, outcome: Oracle, limit: nat)
    ensures forall n :: n in After(imgs, outcome, limit).timings <==> n in imgs
  {
    if imgs != [] {
      var m := |imgs| - 1;
      TimingKeys(imgs[..m], outcome, limit);
      ProcessMeaning(After(imgs[..m], outcome, limit), imgs[m], outcome, limit);
      assert imgs == imgs[..m] + [imgs[m]];
    }
  }

  lemma {:induction false} TimingUpTo(imgs: seq<string>, outcome: Oracle, limit: nat, i: nat, n: nat)
    requires i < n <= |imgs| && forall j | i < j < n :: imgs[j] != imgs[i]
    ensures var t := After(imgs[..n], outcome, limit).timings;
            imgs[i] in t && t[imgs[i]] == TimingOf(imgs, outcome, limit, i)
  {
    assert imgs[..n][..n - 1] == imgs[..n - 1];
    ProcessMeaning(After(imgs[..n - 1], outcome, limit), imgs[n - 1], outcome, limit);
    if i < n - 1 {
      TimingUpTo(imgs, outcome, limit, i, n - 1);
    } else {
      StartOfNext(imgs, outcome, limit, i);
    }
  }

  /** What is recorded for image `i` when it is processed. */
  function TimingOf(imgs: seq<string>, outcome: Oracle, limit: nat, i: nat): Timing
    requires i < |imgs|
  {
    var last := StartOf(imgs, outcome, limit, i) + Tries(outcome, StartOf(imgs, outcome, limit, i), limit);
    if Completed(imgs, outcome, limit, i) then Finished(last - 1) else NotAvailable(last - 1)
  }

  /** Every image name has a timing, and nothing else has; it is that of the last image of the name, and
      reads N/A exactly when that image failed all its attempts. */
  lemma TimingsComplete(imgs: seq<string>, outcome: Oracle, limit: nat)
    ensures forall n :: n in After(imgs, outcome, limit).timings <==> n in imgs
    ensures forall i | 0 <= i < |imgs| && (forall j | i < j < |imgs| :: imgs[j] != imgs[i]) ::
              && imgs[i] in After(imgs, outcome, limit).timings
              && (After(imgs, outcome, limit).timings[imgs[i]].NotAvailable? <==> !Completed(imgs, outcome, limit, i))
              && After(imgs, outcome, limit).timings[imgs[i]].at == StartOf(imgs, outcome, limit, i + 1) - 1
  {
    TimingKeys(imgs, outcome, limit);
    assert imgs[..|imgs|] == imgs;
    forall i | 0 <= i < |imgs| && (forall j | i < j < |imgs| :: imgs[j] != imgs[i])
      ensures imgs[i] in After(imgs, outcome, limit).timings
      ensures After(imgs, outcome, limit).timings[imgs[i]] == TimingOf(imgs, outcome, limit, i)
      ensures TimingOf(imgs, outcome, limit, i).at == StartOf(imgs, outcome, limit, i + 1) - 1
    {
      TimingUpTo(imgs, outcome, limit, i, |imgs|);
      StartOfNext(imgs, outcome, limit, i);
    }
  }

  /** Bounds on the whole campaign. */
  lemma {:induction false} TotalAttempts(imgs: seq<string>, outcome: Oracle, limit: nat)
    requires limit > 0
    ensures |imgs| <= After(imgs, outcome, limit).attempts <= limit * |imgs|
  {
    if imgs != [] {
      var m := |imgs| - 1;
      TotalAttempts(imgs[..m], outcome, limit);
      TriesFacts(outcome, After(imgs[..m], outcome, limit).attempts, limit);
      ProcessMeaning(After(imgs[..m], outcome, limit), imgs[m], outcome, limit);
      OneMore(limit, m);
    }
  }

  lemma OneMore(limit: nat, m: nat)
    ensures limit * (m + 1) == limit * m + limit
  {
  }
}
