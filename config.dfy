/** The plugin's settings (Support/Config.php): compiled-in defaults, the stored settings file
    merged over them with `array_replace_recursive`, and the readers the services use. */
module Config {
  import opened PhpValues

  /** The compiled-in settings. */
  function Defaults(): map<string, Value> {
    map[
      "question" := Str("How likely are you to recommend us to a friend or colleague?"),
      "follow_up_question" := Str("What is the main reason for your score?"),
      "trigger_delay_hours" := Int(24),
      "frequency_limit_days" := Int(90),
      "branding" := Arr(map["primary_color" := Str("#3b82f6"), "logo_url" := Str("")]),
      "enabled" := Bool(true)
    ]
  }

  /** `array_replace_recursive($base, $repl)` on two values: where both are arrays they are merged
      key by key, otherwise the replacement wins. */
  function Replace(base: Value, repl: Value): (r: Value)
    ensures !(base.Arr? && repl.Arr?) ==> r == repl
    ensures base.Arr? && repl.Arr? ==> r.Arr? && r.entries.Keys == base.entries.Keys + repl.entries.Keys
    decreases repl
  {
    if base.Arr? && repl.Arr? then Arr(ReplaceEntries(base.entries, repl))
    else repl
  }

  /** The entries of the merge of `base` with the array `repl`. */
  function ReplaceEntries(base: map<string, Value>, repl: Value): (r: map<string, Value>)
    requires repl.Arr?
    ensures r.Keys == base.Keys + repl.entries.Keys
    decreases repl, 0
  {
    map k | k in base.Keys + repl.entries.Keys ::
      if k in repl.entries then
        (if k in base then Replace(base[k], repl.entries[k]) else repl.entries[k])
      else base[k]
  }

  /** The value the merge holds under each key. */
  lemma MergeAt(base: map<string, Value>, repl: Value, k: string)
    requires repl.Arr? && k in base.Keys + repl.entries.Keys
    ensures k in repl.entries && k in base ==> ReplaceEntries(base, repl)[k] == Replace(base[k], repl.entries[k])
    ensures k in repl.entries && k !in base ==> ReplaceEntries(base, repl)[k] == repl.entries[k]
    ensures k !in repl.entries ==> ReplaceEntries(base, repl)[k] == base[k]
  {
  }

  /** `array_replace_recursive($base, $repl)` on two arrays. */
  function Merge(base: map<string, Value>, repl: map<string, Value>): (r: map<string, Value>)
    ensures r.Keys == base.Keys + repl.Keys
  {
    ReplaceEntries(base, Arr(repl))
  }

  /** `Config::all()`: the stored settings merged over the defaults; the defaults alone when the
      file is missing or does not hold an array. */
  function All(file: File<Value>): (s: map<string, Value>)
    ensures Defaults().Keys <= s.Keys
    ensures !(file.Json? && file.data.Arr?) ==> s == Defaults()
  {
    match file
    case Json(Arr(m)) => Merge(Defaults(), m)
    case _ => Defaults()
  }

  /** `Config::get($key, $default)`. */
  function Get(file: File<Value>, key: string, default: Value): (v: Value)
    ensures key in All(file) && All(file)[key] != Null ==> v == All(file)[key]
    ensures key !in All(file) || All(file)[key] == Null ==> v == default
  {
    Lookup(All(file), key, default)
  }

  /** `!empty($config['enabled'])`. */
  predicate Enabled(settings: map<string, Value>) {
    "enabled" in settings && !Empty(settings["enabled"])
  }

  /** `(int) ($config['frequency_limit_days'] ?? 90)`. */
  function FrequencyLimitDays(settings: map<string, Value>): int {
    IntCast(Lookup(settings, "frequency_limit_days", Int(90)))
  }

  /** `(int) ($config['trigger_delay_hours'] ?? 24)`. */
  function TriggerDelayHours(settings: map<string, Value>): int {
    IntCast(Lookup(settings, "trigger_delay_hours", Int(24)))
  }

  /** Merging a value with itself gives it back. */
  lemma {:induction false} ReplaceSelf(v: Value)
    ensures Replace(v, v) == v
    decreases v
  {
    if v.Arr? {
      forall k | k in v.entries
        ensures ReplaceEntries(v.entries, v)[k] == v.entries[k]
      {
        MergeAt(v.entries, v, k);
        ReplaceSelf(v.entries[k]);
      }
      assert ReplaceEntries(v.entries, v) == v.entries;
    }
  }

  /** Merging over the same base twice is merging once. */
  lemma {:induction false} ReplaceIdempotent(base: Value, repl: Value)
    ensures Replace(base, Replace(base, repl)) == Replace(base, repl)
    decreases repl
  {
    if base.Arr? && repl.Arr? {
      var once := Replace(base, repl);
      forall k | k in once.entries
        ensures ReplaceEntries(base.entries, once)[k] == once.entries[k]
      {
        assert once.entries == ReplaceEntries(base.entries, repl);
        MergeAt(base.entries, repl, k);
        MergeAt(base.entries, once, k);
        if k in base.entries && k in repl.entries {
          ReplaceIdempotent(base.entries[k], repl.entries[k]);
        } else if k in base.entries {
          ReplaceSelf(base.entries[k]);
        }
      }
      assert ReplaceEntries(base.entries, once) == once.entries;
    }
  }

  /** Every default key is present in the settings; a stored value that is not an array, or
      whose default is not an array, replaces the default as it is; a stored `branding` array is
      merged key by key over the default branding. */
  lemma StoredValuesWin(stored: map<string, Value>, k: string)
    ensures Defaults().Keys <= All(Json(Arr(stored))).Keys
    ensures (k in stored && !(k in Defaults() && Defaults()[k].Arr? && stored[k].Arr?))
              ==> All(Json(Arr(stored)))[k] == stored[k]
    ensures k !in stored && k in Defaults() ==> All(Json(Arr(stored)))[k] == Defaults()[k]
    ensures "branding" in stored && stored["branding"].Arr? ==>
              All(Json(Arr(stored)))["branding"]
                == Arr(Merge(Defaults()["branding"].entries, stored["branding"].entries))
  {
    if "branding" in stored && stored["branding"].Arr? {
      assert Arr(stored["branding"].entries) == stored["branding"];
      MergeAt(Defaults(), Arr(stored), "branding");
    }
  }

  /** What `save` writes is read back unchanged by `all`. */
  lemma SaveThenLoad(config: map<string, Value>)
    ensures All(Json(Arr(Merge(Defaults(), config)))) == Merge(Defaults(), config)
  {
    ReplaceIdempotent(Arr(Defaults()), Arr(config));
  }

  /** After `save($config)` a default key that `$config` omits reads as its default, whatever the
      settings were before. */
  lemma SaveRevertsOmittedKeys(config: map<string, Value>, k: string)
    requires k in Defaults() && k !in config
    ensures All(Json(Arr(Merge(Defaults(), config))))[k] == Defaults()[k]
  {
    SaveThenLoad(config);
  }

  /** With no settings file the services run with a 24-hour delay, a 90-day frequency limit, the
      plugin enabled and an empty logo. */
  lemma DefaultSettings()
    ensures TriggerDelayHours(All(Missing)) == 24
    ensures FrequencyLimitDays(All(Missing)) == 90
    ensures Enabled(All(Missing))
    ensures Lookup(All(Missing)["branding"].entries, "logo_url", Null) == Str("")
  {
  }

  /** The stored settings file (`settings.json`). */
  class ConfigStore {
    var file: File<Value>

    constructor (file: File<Value>)
      ensures this.file == file
    {
      this.file := file;
    }

    /** `Config::all()` on the current file. */
    function Settings(): (s: map<string, Value>)
      reads this
      ensures Defaults().Keys <= s.Keys
    {
      All(file)
    }

    /** `Config::save($config)`: persists the merge of `$config` over the defaults (not over the
        previous settings). */
    method Save(config: map<string, Value>) returns (ok: bool)
      modifies this
      ensures file == Json(Arr(Merge(Defaults(), config)))
      ensures Settings() == Merge(Defaults(), config)
      ensures ok
    {
      file := Json(Arr(Merge(Defaults(), config)));
      SaveThenLoad(config);
      ok := true;
    }
  }
}
