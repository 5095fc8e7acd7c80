/**
 * Project initialisation: the hook tables registered with the two assistant
 * hosts, filtered by the configured active hooks, the `.gitignore` of the
 * data directory, and the settings file whose "hooks" key is replaced.
 *
 * Files come in as what reading them gives (`None` when absent) and go out as
 * the values that would be written; directory creation is not modelled.
 */
module ProjectInit {
  import opened Wrappers
  import opened Text
  import opened Values
  import Config

  /** A command hook entry of the first host's settings. */
  function ClaudeCommand(command: string, isAsync: bool, timeout: int): Value {
    var entry := map["type" := Str("command"), "command" := Str(command), "timeout" := Int(timeout)];
    Dict(if isAsync then entry["async" := Bool(true)] else entry)
  }

  /** A command hook entry of the second host's `hooks.json`. */
  function CursorCommand(command: string, timeout: int): Value {
    List([Dict(map["command" := Str(command), "type" := Str("command"), "timeout" := Int(timeout)])])
  }

  /** `HOOK_CONFIG`: the first host's hook table, by lifecycle event. */
  const HookConfig: map<string, Value> := map[
    "SessionEnd" := List([Dict(map["hooks" := List([ClaudeCommand("thehook capture", true, 120)])])]),
    "SessionStart" := List([Dict(map["matcher" := Str("startup"),
                                     "hooks" := List([ClaudeCommand("thehook retrieve", false, 30)])])]),
    "UserPromptSubmit" := List([Dict(map["hooks" := List([ClaudeCommand("thehook retrieve", false, 30)])])]),
    "Stop" := List([Dict(map["hooks" := List([ClaudeCommand("thehook capture-lite", true, 25)])])]),
    "PreCompact" := List([Dict(map["hooks" := List([ClaudeCommand("thehook capture-lite", true, 25)])])])
  ]

  /** The keys of `HOOK_CONFIG` in their declared order. */
  const HookNames: seq<string> := ["SessionEnd", "SessionStart", "UserPromptSubmit", "Stop", "PreCompact"]

  const CursorVersion := 1

  /** `CURSOR_HOOK_CONFIG["hooks"]`: the second host's hook table, under its own event names. */
  const CursorHooks: map<string, Value> := map[
    "sessionEnd" := CursorCommand("thehook capture", 120),
    "sessionStart" := CursorCommand("thehook retrieve", 30),
    "beforeSubmitPrompt" := CursorCommand("thehook retrieve", 30),
    "stop" := CursorCommand("thehook capture-lite", 25),
    "preCompact" := CursorCommand("thehook capture-lite", 25)
  ]

  /** The second host's name for each event of the first. */
  const CursorNameOf: map<string, string> := map[
    "SessionEnd" := "sessionEnd",
    "SessionStart" := "sessionStart",
    "UserPromptSubmit" := "beforeSubmitPrompt",
    "Stop" := "stop",
    "PreCompact" := "preCompact"
  ]

  /** The first host's table and the renaming cover the same five events. */
  lemma TablesAgree()
    ensures HookConfig.Keys == CursorNameOf.Keys == set n | n in HookNames
  {
  }

  /** The renaming never maps two events to one name. */
  lemma RenamingInjective()
    ensures forall a, b :: a in CursorNameOf && b in CursorNameOf && a != b ==> CursorNameOf[a] != CursorNameOf[b]
  {
  }

  /** Every renamed event has an entry in the second host's table, and every entry there is a renamed event. */
  lemma RenamingOnto()
    ensures forall n :: n in CursorNameOf ==> CursorNameOf[n] in CursorHooks
    ensures forall k :: k in CursorHooks ==> exists n :: n in CursorNameOf && CursorNameOf[n] == k
  {
    forall k | k in CursorHooks ensures exists n :: n in CursorNameOf && CursorNameOf[n] == k {
      var n :=
        if k == "sessionEnd" then "SessionEnd"
        else if k == "sessionStart" then "SessionStart"
        else if k == "beforeSubmitPrompt" then "UserPromptSubmit"
        else if k == "stop" then "Stop"
        else "PreCompact";
      assert n in CursorNameOf && CursorNameOf[n] == k;
    }
  }

  /**
   * `_load_active_hooks`: the configured `active_hooks` as strings, or every
   * event when the config cannot be loaded (`None`) or the setting is not a
   * non-empty list.
   */
  function LoadActiveHooks(config: Option<map<string, Value>>): (names: seq<string>)
    ensures names != []
    ensures config.None? ==> names == HookNames
    ensures config.Some? ==>
      var active := Get(config.value, "active_hooks", Null);
      if active.List? && active.items != [] then
        |names| == |active.items| && forall i :: 0 <= i < |names| ==> names[i] == Render(active.items[i])
      else names == HookNames
  {
    if config.None? then HookNames
    else
      var active := Get(config.value, "active_hooks", Null);
      if !active.List? || active.items == [] then HookNames
      else seq(|active.items|, i requires 0 <= i < |active.items| => Render(active.items[i]))
  }

  /** Without a config file the default active hooks, session end and session start, are used. */
  lemma DefaultActiveHooks()
    ensures LoadActiveHooks(Config.LoadConfig(Config.Missing)) == ["SessionEnd", "SessionStart"]
  {
    var names := LoadActiveHooks(Config.LoadConfig(Config.Missing));
    assert |names| == 2;
  }

  /** `_build_claude_hooks`: the table entries of the active events, unknown names dropped. */
  function BuildClaudeHooks(active: seq<string>): (hooks: map<string, Value>)
    ensures forall n :: n in hooks <==> n in active && n in HookConfig
    ensures forall n :: n in hooks ==> hooks[n] == HookConfig[n]
  {
    map n | n in active && n in HookConfig :: HookConfig[n]
  }

  /** Activating every event registers the whole table. */
  lemma AllActiveRegistersTable()
    ensures BuildClaudeHooks(HookNames) == HookConfig
  {
    assert BuildClaudeHooks(HookNames).Keys == HookConfig.Keys;
  }

  /** The second host's names of the active events that it has a table entry for. */
  ghost function CursorKeys(active: seq<string>): set<string> {
    set n | n in active && n in CursorNameOf && CursorNameOf[n] != "" && CursorNameOf[n] in CursorHooks
      :: CursorNameOf[n]
  }

  /** `_build_cursor_hooks`: the loop translating each active name through the fixed table. */
  method BuildCursorHooks(active: seq<string>) returns (hooks: map<string, Value>)
    ensures hooks.Keys == CursorKeys(active)
    ensures forall k :: k in hooks ==> hooks[k] == CursorHooks[k]
  {
    hooks := map[];
    for i := 0 to |active|
      invariant hooks.Keys == CursorKeys(active[..i])
      invariant forall k :: k in hooks ==> hooks[k] == CursorHooks[k]
    {
      var name := active[i];
      assert active[..i + 1] == active[..i] + [name];
      if name in CursorNameOf {
        var cursorName := CursorNameOf[name];
        if cursorName != "" && cursorName in CursorHooks {
          hooks := hooks[cursorName := CursorHooks[cursorName]];
        }
      }
    }
    assert active[..|active|] == active;
  }

  /** Both hosts get the same events: an event is registered with one exactly when it is with the other. */
  lemma SameEventsBothHosts(active: seq<string>)
    ensures forall n :: n in HookConfig ==> (n in BuildClaudeHooks(active) <==> CursorNameOf[n] in CursorKeys(active))
    ensures forall k :: k in CursorKeys(active) ==> exists n :: n in BuildClaudeHooks(active) && CursorNameOf[n] == k
  {
    TablesAgree();
    RenamingOnto();
    RenamingInjective();
    var claude := BuildClaudeHooks(active);
    forall n | n in HookConfig
      ensures n in claude <==> CursorNameOf[n] in CursorKeys(active)
    {
      assert CursorNameOf[n] != "";
      if CursorNameOf[n] in CursorKeys(active) {
        var m :| m in active && m in CursorNameOf && CursorNameOf[m] == CursorNameOf[n];
        assert m == n;
      }
    }
    forall k | k in CursorKeys(active)
      ensures exists n :: n in claude && CursorNameOf[n] == k
    {
      var n :| n in active && n in CursorNameOf && CursorNameOf[n] == k;
      assert n in claude;
    }
  }

  /** The entries every data-directory `.gitignore` must list. */
  const RequiredEntries: set<string> := {"chromadb/", "intermediate_capture_state.json"}

  /** What a fresh `.gitignore` holds. */
  const DefaultGitignore := "chromadb/\nintermediate_capture_state.json\n"

  /**
   * `merged` keeps the existing lines in order and appends each required entry
   * that is not already a line, once, and nothing else.
   */
  predicate MergedLines(existing: seq<string>, merged: seq<string>) {
    |existing| <= |merged| && merged[..|existing|] == existing &&
    (forall e :: e in RequiredEntries ==> e in merged) &&
    (forall i :: |existing| <= i < |merged| ==> merged[i] in RequiredEntries && merged[i] !in existing) &&
    (forall i, j :: |existing| <= i < j < |merged| ==> merged[i] != merged[j])
  }

  /**
   * The line merge of `init_project`; the required entries are visited in the
   * unspecified order of a set, so the order of the appended lines is left open.
   */
  method MergeGitignoreLines(existing: seq<string>) returns (merged: seq<string>)
    ensures MergedLines(existing, merged)
    ensures (forall e :: e in RequiredEntries ==> e in existing) ==> merged == existing
  {
    merged := existing;
    var remaining := RequiredEntries;
    while remaining != {}
      invariant remaining <= RequiredEntries
      invariant |existing| <= |merged| && merged[..|existing|] == existing
      invariant forall e :: e in RequiredEntries - remaining ==> e in merged
      invariant forall i :: |existing| <= i < |merged| ==>
                  merged[i] in RequiredEntries - remaining && merged[i] !in existing
      invariant forall i, j :: |existing| <= i < j < |merged| ==> merged[i] != merged[j]
      invariant (forall e :: e in RequiredEntries ==> e in existing) ==> merged == existing
      decreases remaining
    {
      var entry :| entry in remaining;
      if entry !in existing {
        merged := merged + [entry];
      }
      remaining := remaining - {entry};
    }
  }

  /** A string whose last character is not whitespace is its own `rstrip()`. */
  lemma RStripKeepsNonSpaceEnd(s: string)
    requires s != [] && !IsSpace(s[|s| - 1])
    ensures RStrip(s) == s
  {
  }

  /**
   * The `.gitignore` that `init_project` writes: the default one when the file
   * is absent (`None`), else its lines (`splitlines()`) merged with the required
   * entries, joined, right-stripped and ended by one newline.
   */
  method WriteGitignore(existing: Option<seq<string>>) returns (text: string)
    ensures existing.None? ==> text == DefaultGitignore
    ensures existing.Some? ==>
      exists merged :: MergedLines(existing.value, merged) && text == RStrip(Join(merged, "\n")) + "\n"
    ensures text != [] && text[|text| - 1] == '\n'
  {
    if existing.None? {
      return DefaultGitignore;
    }
    var merged := MergeGitignoreLines(existing.value);
    text := RStrip(Join(merged, "\n")) + "\n";
  }

  /**
   * When an entry had to be appended, nothing of the joined lines is stripped:
   * the text is exactly the merged lines, each ended by a newline.
   */
  lemma AppendedEntriesSurviveStrip(existing: seq<string>, merged: seq<string>)
    requires MergedLines(existing, merged) && |merged| > |existing|
    ensures RStrip(Join(merged, "\n")) == Join(merged, "\n")
    ensures var j := Join(merged, "\n"); var last := merged[|merged| - 1];
      |last| <= |j| && j[|j| - |last|..] == last
  {
    var last := merged[|merged| - 1];
    assert last in RequiredEntries;
    JoinEndsWithLast(merged, "\n");
    var j := Join(merged, "\n");
    assert j[|j| - 1] == last[|last| - 1];
    RStripKeepsNonSpaceEnd(j);
  }

  /** The settings written back: every other key kept, "hooks" replaced by the built table. */
  function MergeSettings(settings: map<string, Value>, hooks: map<string, Value>): (r: map<string, Value>)
    ensures r.Keys == settings.Keys + {"hooks"}
    ensures r["hooks"] == Dict(hooks)
    ensures forall k :: k in settings && k != "hooks" ==> r[k] == settings[k]
  {
    settings["hooks" := Dict(hooks)]
  }

  /** Re-running the merge with the same table changes nothing. */
  lemma MergeSettingsIdempotent(settings: map<string, Value>, hooks: map<string, Value>)
    ensures MergeSettings(MergeSettings(settings, hooks), hooks) == MergeSettings(settings, hooks)
  {
  }

  /**
   * What `init_project` writes: the `.gitignore` text, the settings object,
   * and the second host's `hooks.json` document together with the hook table
   * inside it.
   */
  datatype InitFiles = InitFiles(gitignore: string, settings: map<string, Value>,
                                 cursorHooks: map<string, Value>, cursorDocument: map<string, Value>)

  /** The `hooks.json` document around a hook table. */
  function CursorConfigFile(hooks: map<string, Value>): map<string, Value> {
    map["version" := Int(CursorVersion), "hooks" := Dict(hooks)]
  }

  /** `hooks.json` has exactly a version, which is 1, and the hook table. */
  lemma CursorDocumentShape(hooks: map<string, Value>)
    ensures var d := CursorConfigFile(hooks);
      d.Keys == {"version", "hooks"} && d["version"] == Int(1) && d["hooks"] == Dict(hooks)
  {
  }

  /**
   * `init_project`, given the current `.gitignore` lines, the project's config
   * file and the current settings (`None` when absent).
   */
  method InitProject(gitignore: Option<seq<string>>, configFile: Config.ConfigFile,
                     settings: Option<map<string, Value>>) returns (out: InitFiles)
    ensures gitignore.None? ==> out.gitignore == DefaultGitignore
    ensures gitignore.Some? ==>
      exists merged :: MergedLines(gitignore.value, merged) && out.gitignore == RStrip(Join(merged, "\n")) + "\n"
    ensures var active := LoadActiveHooks(Config.LoadConfig(configFile));
      out.settings == MergeSettings(if settings.Some? then settings.value else map[], BuildClaudeHooks(active))
    ensures var active := LoadActiveHooks(Config.LoadConfig(configFile));
      out.cursorHooks.Keys == CursorKeys(active) &&
      forall k :: k in out.cursorHooks ==> out.cursorHooks[k] == CursorHooks[k]
    ensures out.cursorDocument == CursorConfigFile(out.cursorHooks)
  {
    var gitignoreText := WriteGitignore(gitignore);
    var active := LoadActiveHooks(Config.LoadConfig(configFile));
    var current := if settings.Some? then settings.value else map[];
    var newSettings := MergeSettings(current, BuildClaudeHooks(active));
    var cursorHooks := BuildCursorHooks(active);
    out := InitFiles(gitignoreText, newSettings, cursorHooks, CursorConfigFile(cursorHooks));
  }

  /**
   * With no config file, both hosts register exactly session end and session
   * start, with the table's commands.
   */
  lemma DefaultInitRegistersEndAndStart()
    ensures var hooks := BuildClaudeHooks(LoadActiveHooks(Config.LoadConfig(Config.Missing)));
      hooks.Keys == {"SessionEnd", "SessionStart"} &&
      hooks["SessionEnd"] == HookConfig["SessionEnd"] && hooks["SessionStart"] == HookConfig["SessionStart"]
    ensures CursorKeys(LoadActiveHooks(Config.LoadConfig(Config.Missing))) == {"sessionEnd", "sessionStart"}
  {
    DefaultActiveHooks();
    EndAndStartFirstHost();
    EndAndStartSecondHost();
  }

  lemma EndAndStartFirstHost()
    ensures var hooks := BuildClaudeHooks(["SessionEnd", "SessionStart"]);
      hooks.Keys == {"SessionEnd", "SessionStart"} &&
      hooks["SessionEnd"] == HookConfig["SessionEnd"] && hooks["SessionStart"] == HookConfig["SessionStart"]
  {
    var active := ["SessionEnd", "SessionStart"];
    assert BuildClaudeHooks(active).Keys == {"SessionEnd", "SessionStart"};
  }

  lemma EndAndStartSecondHost()
    ensures CursorKeys(["SessionEnd", "SessionStart"]) == {"sessionEnd", "sessionStart"}
  {
    CursorKeysOfPair("SessionEnd", "SessionStart");
  }

  /** Two events with entries on the second host register exactly their two renamed events. */
  lemma CursorKeysOfPair(a: string, b: string)
    requires a in CursorNameOf && CursorNameOf[a] != "" && CursorNameOf[a] in CursorHooks
    requires b in CursorNameOf && CursorNameOf[b] != "" && CursorNameOf[b] in CursorHooks
    ensures CursorKeys([a, b]) == {CursorNameOf[a], CursorNameOf[b]}
  {
    assert a in [a, b] && b in [a, b];
  }
}
