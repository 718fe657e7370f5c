/** The active engines and their settings (app/services/orchestrator/registry.py). */
module Registry {
  import opened Strings
  import opened Payloads

  const DEFAULT_ENGINE_TIMEOUT := 120
  const DEFAULT_ENGINE_WEIGHT := 0.15
  const AVAILABLE_ENGINES: seq<string> := ["clamav", "yara", "windows-defender"]

  datatype EngineDefinition = EngineDefinition(timeout: int, weight: real)

  /** One entry of the configured engine mapping. */
  datatype RawConfig = Block(fields: Dict) | NotABlock

  predicate AsBool(v: Value) {
    match v
    case Bool(b) => b
    case Num(r) => r != 0.0
    case Str(s) => Lower(Strip(s)) in {"true", "1", "yes", "y", "on"}
    case _ => false
  }

  function Truncate(r: real): int { if r >= 0.0 then r.Floor else -((-r).Floor) }

  /** `int(v)`; `None` where Python raises. `parse` reads integer text. */
  function ToInt(v: Value, parse: string -> Option<int>): Option<int> {
    match v
    case Bool(b) => Some(if b then 1 else 0)
    case Num(r) => Some(Truncate(r))
    case Str(s) => parse(s)
    case _ => None
  }

  function CoerceTimeout(v: Value, parse: string -> Option<int>): (t: int)
    ensures t > 0
  {
    match ToInt(v, parse)
    case Some(n) => if n > 0 then n else DEFAULT_ENGINE_TIMEOUT
    case None => DEFAULT_ENGINE_TIMEOUT
  }

  function CoerceWeight(v: Value, parse: string -> Option<real>): (w: real)
    ensures w > 0.0
  {
    match ToFloat(v, parse)
    case Some(x) => if x > 0.0 then x else DEFAULT_ENGINE_WEIGHT
    case None => DEFAULT_ENGINE_WEIGHT
  }

  datatype Parsers = Parsers(integers: string -> Option<int>, floats: string -> Option<real>)

  /** `block.get(key, default)` */
  function GetOr(d: Dict, key: string, default: Value): Value { if key in d then d[key] else default }

  function ParseEngine(name: string, raw: RawConfig, parsers: Parsers): Option<EngineDefinition> {
    if name !in AVAILABLE_ENGINES then None
    else
      var block := if raw.Block? then raw.fields else map[];
      if !AsBool(GetOr(block, "enabled", Bool(true))) then None
      else Some(EngineDefinition(
        CoerceTimeout(GetOr(block, "timeout", Num(DEFAULT_ENGINE_TIMEOUT as real)), parsers.integers),
        CoerceWeight(GetOr(block, "weight", Num(DEFAULT_ENGINE_WEIGHT)), parsers.floats)))
  }

  function DefaultRegistry(): map<string, EngineDefinition> {
    map name | name in AVAILABLE_ENGINES :: EngineDefinition(DEFAULT_ENGINE_TIMEOUT, DEFAULT_ENGINE_WEIGHT)
  }

  /** The engines a configuration enables, entries taken in order. */
  function Configured(entries: seq<(string, RawConfig)>, parsers: Parsers): map<string, EngineDefinition> {
    if entries == [] then map[]
    else
      var before := Configured(entries[..|entries| - 1], parsers);
      var name := Lower(entries[|entries| - 1].0);
      var parsed := ParseEngine(name, entries[|entries| - 1].1, parsers);
      if parsed.Some? then before[name := parsed.value] else before
  }

  /** The registry in force; `entries` is `None` when loading failed. */
  function ActiveEngines(entries: Option<seq<(string, RawConfig)>>, parsers: Parsers): map<string, EngineDefinition> {
    if entries.None? || Configured(entries.value, parsers) == map[] then DefaultRegistry()
    else Configured(entries.value, parsers)
  }

  method GetActiveEngines(entries: Option<seq<(string, RawConfig)>>, parsers: Parsers)
    returns (registry: map<string, EngineDefinition>)
    ensures registry == ActiveEngines(entries, parsers)
  {
    if entries.None? {
      return DefaultRegistry();
    }
    registry := map[];
    var config := entries.value;
    for i := 0 to |config|
      invariant registry == Configured(config[..i], parsers)
    {
      assert config[..i + 1][..i] == config[..i];
      var name := Lower(config[i].0);
      var parsed := ParseEngine(name, config[i].1, parsers);
      if parsed.Some? {
        registry := registry[name := parsed.value];
      }
    }
    assert config[..|config|] == config;
    if registry == map[] {
      registry := DefaultRegistry();
    }
  }

  /** Entry `i` enables engine `name` and no later entry does. */
  predicate LastEnabled(entries: seq<(string, RawConfig)>, i: int, name: string, parsers: Parsers) {
    && 0 <= i < |entries|
    && Lower(entries[i].0) == name && ParseEngine(name, entries[i].1, parsers).Some?
    && forall j | i < j < |entries| :: Lower(entries[j].0) == name ==> ParseEngine(name, entries[j].1, parsers).None?
  }

  lemma {:induction false} LastEnabledWins(entries: seq<(string, RawConfig)>, name: string, parsers: Parsers)
    requires name in Configured(entries, parsers)
    ensures exists i :: LastEnabled(entries, i, name, parsers)
                        && ParseEngine(name, entries[i].1, parsers) == Some(Configured(entries, parsers)[name])
  {
    var n := |entries| - 1;
    var init := entries[..n];
    if Lower(entries[n].0) == name && ParseEngine(name, entries[n].1, parsers).Some? {
      assert LastEnabled(entries, n, name, parsers);
    } else {
      LastEnabledWins(init, name, parsers);
      var i :| LastEnabled(init, i, name, parsers)
               && ParseEngine(name, init[i].1, parsers) == Some(Configured(init, parsers)[name]);
      assert LastEnabled(entries, i, name, parsers);
    }
  }

  /** There is always an engine to run, only known engines run, every setting
      is positive, and a configured engine has the settings of its last enabled
      entry. */
  lemma ActiveEnginesMeaning(entries: Option<seq<(string, RawConfig)>>, parsers: Parsers)
    ensures ActiveEngines(entries, parsers) != map[]
    ensures forall name | name in ActiveEngines(entries, parsers) ::
              && name in AVAILABLE_ENGINES
              && ActiveEngines(entries, parsers)[name].timeout > 0
              && ActiveEngines(entries, parsers)[name].weight > 0.0
  {
    assert AVAILABLE_ENGINES[0] == "clamav";
    assert "clamav" in DefaultRegistry();
    if entries.Some? {
      forall name | name in Configured(entries.value, parsers)
        ensures name in AVAILABLE_ENGINES && Configured(entries.value, parsers)[name].timeout > 0
        ensures Configured(entries.value, parsers)[name].weight > 0.0
      {
        LastEnabledWins(entries.value, name, parsers);
      }
    }
  }

  /** What switches an engine on: true, a number that is not zero, or one of five
      words in any letter case; without a setting it is on. */
  lemma EnabledMeaning(name: string, d: Dict, parsers: Parsers)
    requires name in {"clamav", "yara", "windows-defender"}
    ensures "enabled" !in d ==> ParseEngine(name, Block(d), parsers).Some?
    ensures "enabled" in d ==>
              (ParseEngine(name, Block(d), parsers).Some? <==>
               match d["enabled"]
               case Bool(b) => b
               case Num(r) => r != 0.0
               case Str(s) => Lower(Strip(s)) in {"true", "1", "yes", "y", "on"}
               case _ => false)
    ensures ParseEngine(name, NotABlock, parsers) == Some(EngineDefinition(120, 0.15))
  {
    assert AVAILABLE_ENGINES[0] == "clamav" && AVAILABLE_ENGINES[1] == "yara" && AVAILABLE_ENGINES[2] == "windows-defender";
  }

  /** Only the three engines are known. */
  lemma UnknownEngines(name: string, raw: RawConfig, parsers: Parsers)
    requires name !in {"clamav", "yara", "windows-defender"}
    ensures ParseEngine(name, raw, parsers).None?
  {
    assert AVAILABLE_ENGINES[0] == "clamav" && AVAILABLE_ENGINES[1] == "yara" && AVAILABLE_ENGINES[2] == "windows-defender";
  }

  /** A positive timeout or weight is used, cut to whole seconds; 120 seconds and
      .15 stand in for a missing, unreadable or non-positive one. */
  lemma SettingsMeaning(name: string, d: Dict, parsers: Parsers)
    requires ParseEngine(name, Block(d), parsers).Some?
    ensures var e := ParseEngine(name, Block(d), parsers).value;
            && ("timeout" !in d ==> e.timeout == 120) && ("weight" !in d ==> e.weight == 0.15)
            && ("timeout" in d && d["timeout"].Num? ==>
                  if d["timeout"].r >= 1.0 then e.timeout as real <= d["timeout"].r < e.timeout as real + 1.0 else e.timeout == 120)
            && ("timeout" in d && d["timeout"].Str? ==>
                  e.timeout == match parsers.integers(d["timeout"].s) case Some(n) => (if n > 0 then n else 120) case None => 120)
            && ("timeout" in d && d["timeout"].Bool? ==> e.timeout == if d["timeout"].b then 1 else 120)
            && ("weight" in d && d["weight"].Num? ==> e.weight == if d["weight"].r > 0.0 then d["weight"].r else 0.15)
            && ("weight" in d && d["weight"].Str? ==>
                  e.weight == match parsers.floats(d["weight"].s) case Some(x) => (if x > 0.0 then x else 0.15) case None => 0.15)
  {
  }

  /** With no readable or enabled entry all three engines run with the defaults. */
  lemma DefaultsMeaning(entries: Option<seq<(string, RawConfig)>>, parsers: Parsers)
    ensures entries.None? || Configured(entries.value, parsers) == map[] ==>
              ActiveEngines(entries, parsers)
              == map["clamav" := EngineDefinition(120, 0.15), "yara" := EngineDefinition(120, 0.15),
                     "windows-defender" := EngineDefinition(120, 0.15)]
    ensures entries.Some? && Configured(entries.value, parsers) != map[] ==>
              ActiveEngines(entries, parsers) == Configured(entries.value, parsers)
  {
    assert AVAILABLE_ENGINES[0] == "clamav" && AVAILABLE_ENGINES[1] == "yara" && AVAILABLE_ENGINES[2] == "windows-defender";
  }

  /** An engine is configured iff some entry of its name, in any letter case,
      enables it. */
  lemma {:induction false} ConfiguredMeaning(entries: seq<(string, RawConfig)>, name: string, parsers: Parsers)
    ensures name in Configured(entries, parsers) <==>
            exists i :: 0 <= i < |entries| && Lower(entries[i].0) == name && ParseEngine(name, entries[i].1, parsers).Some?
  {
    if entries != [] {
      var n := |entries| - 1;
      ConfiguredMeaning(entries[..n], name, parsers);
      if i :| 0 <= i < |entries[..n]| && Lower(entries[..n][i].0) == name && ParseEngine(name, entries[..n][i].1, parsers).Some? {
        assert Lower(entries[i].0) == name;
      }
      if i :| 0 <= i < |entries| && Lower(entries[i].0) == name && ParseEngine(name, entries[i].1, parsers).Some? {
        if i < n { assert Lower(entries[..n][i].0) == name; }
      }
    }
  }
}
