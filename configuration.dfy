/** The configuration resolver of src/utils/config.py: the `Config` record,
    its validator, the two file formats `Config.from_file` reads, and
    `load_config`, which finds the file and refuses an invalid result. */
module Configuration {
  import opened Wrappers
  import opened Values
  import opened Strings

  /** The `Config` dataclass. A dataclass does not check its annotations, so
      every field holds a Python value: the flat-file branch always produces
      the annotated types (see WellTyped), the Python-source branch stores
      the module's constants as they are. */
  datatype Config = Config(
    baseUrl: Value,
    apiKey: Value,
    tavilyApiKey: Value,
    model: Value,
    maxSearchResults: Value,
    searchTimeout: Value,
    maxContentLength: Value,
    maxReflections: Value,
    maxParagraphs: Value,
    outputDir: Value,
    saveIntermediateStates: Value)

  /** The field types the dataclass annotates. */
  predicate WellTyped(c: Config) {
    && IsOptionalStr(c.baseUrl) && IsOptionalStr(c.apiKey) && IsOptionalStr(c.tavilyApiKey)
    && c.model.PyStr?
    && c.maxSearchResults.PyInt? && c.searchTimeout.PyInt? && c.maxContentLength.PyInt?
    && c.maxReflections.PyInt? && c.maxParagraphs.PyInt?
    && c.outputDir.PyStr?
    && c.saveIntermediateStates.PyBool?
  }

  /** The exceptions the resolver lets escape, by kind. */
  datatype ConfigError =
    | NotFound                    // FileNotFoundError: no configuration file
    | LoadFailed                  // executing the Python configuration file raised
    | UnboundProfile              // UnboundLocalError: `method` is neither "basic" nor "advanced"
    | NotAnInteger(text: string)  // ValueError from int() on a numeric field's text
    | ValidationFailed            // ValueError: the loaded configuration failed validate()

  // ---------------------------------------------------------------------------
  // Validation (Config.validate)

  datatype Credential = ApiKey | TavilyApiKey

  /** The credential `validate` complains about: the API key is checked first,
      the Tavily key only when the API key is set. */
  function MissingCredential(c: Config): (m: Option<Credential>)
    ensures m == Some(ApiKey) <==> !Truthy(c.apiKey)
    ensures m == Some(TavilyApiKey) <==> Truthy(c.apiKey) && !Truthy(c.tavilyApiKey)
  {
    if !Truthy(c.apiKey) then Some(ApiKey)
    else if !Truthy(c.tavilyApiKey) then Some(TavilyApiKey)
    else None
  }

  /** `Config.validate()`: both credentials are truthy; for `Optional[str]`
      fields that means present and non-empty. */
  function Validate(c: Config): (ok: bool)
    ensures ok <==> Truthy(c.apiKey) && Truthy(c.tavilyApiKey)
    ensures IsOptionalStr(c.apiKey) && IsOptionalStr(c.tavilyApiKey) ==>
      (ok <==> c.apiKey.PyStr? && c.apiKey.s != "" && c.tavilyApiKey.PyStr? && c.tavilyApiKey.s != "")
  {
    MissingCredential(c).None?
  }

  // ---------------------------------------------------------------------------
  // The flat KEY=VALUE format

  /** A line adds to the dictionary when, stripped, it is non-empty, does not
      start with `#` and contains `=`. */
  predicate Kept(line: string) {
    var t := Strip(line);
    t != [] && !StartsWith(t, "#") && '=' in t
  }

  /** The entry a kept line records: the stripped line split at its first
      `=`, key and value each stripped. */
  function Entry(line: string): (kv: (string, string))
    requires Kept(line)
    ensures '=' !in kv.0
    ensures IsStripped(kv.0) && IsStripped(kv.1)
  {
    var parts := SplitOnce(Strip(line), '=');
    StripNoNewChar(parts.0, '=');
    (Strip(parts.0), Strip(parts.1))
  }

  /** What one line of a flat file contributes: its entry when it is kept. */
  function LineEntry(line: string): (e: Option<(string, string)>)
    ensures e.Some? <==> Kept(line)
  {
    if Kept(line) then Some(Entry(line)) else None
  }

  /** `config_dict[key] = value` for a kept line; nothing otherwise. */
  function Record(dict: map<string, string>, e: Option<(string, string)>): map<string, string> {
    match e
    case None => dict
    case Some(kv) => dict[kv.0 := kv.1]
  }

  /** The dictionary built by recording the entries in order. */
  function Collect(entries: seq<Option<(string, string)>>): map<string, string> {
    if entries == [] then map[]
    else Record(Collect(entries[..|entries| - 1]), entries[|entries| - 1])
  }

  function LineEntries(lines: seq<string>): (es: seq<Option<(string, string)>>)
    ensures |es| == |lines|
    ensures forall i :: 0 <= i < |lines| ==> es[i] == LineEntry(lines[i])
  {
    seq(|lines|, i requires 0 <= i < |lines| => LineEntry(lines[i]))
  }

  lemma LineEntriesAppend(a: seq<string>, b: seq<string>)
    ensures LineEntries(a + b) == LineEntries(a) + LineEntries(b)
  {
  }

  /** The dictionary the loop over a file's lines builds. */
  function FlatEntries(lines: seq<string>): map<string, string> {
    Collect(LineEntries(lines))
  }

  /** One more line records its entry on top of the dictionary so far. */
  lemma FlatEntriesSnoc(lines: seq<string>, line: string)
    ensures FlatEntries(lines + [line]) == Record(FlatEntries(lines), LineEntry(line))
  {
    assert LineEntries(lines + [line])[..|lines|] == LineEntries(lines);
  }

  /** `e` is an entry for `key`. */
  predicate Sets(e: Option<(string, string)>, key: string) {
    e.Some? && e.value.0 == key
  }

  lemma {:induction false} CollectLastWins(entries: seq<Option<(string, string)>>, key: string)
    ensures key in Collect(entries) <==> exists i :: 0 <= i < |entries| && Sets(entries[i], key)
    ensures key in Collect(entries) ==>
      exists i :: 0 <= i < |entries| && entries[i] == Some((key, Collect(entries)[key]))
                  && forall j :: i < j < |entries| ==> !Sets(entries[j], key)
  {
    if entries != [] {
      var init := entries[..|entries| - 1];
      var last := |entries| - 1;
      CollectLastWins(init, key);
      if !Sets(entries[last], key) {
        if key in Collect(entries) {
          var i :| 0 <= i < |init| && init[i] == Some((key, Collect(init)[key]))
                   && forall j :: i < j < |init| ==> !Sets(init[j], key);
          assert entries[i] == init[i];
        }
        if exists i :: 0 <= i < |entries| && Sets(entries[i], key) {
          var i :| 0 <= i < |entries| && Sets(entries[i], key);
          assert Sets(init[i], key);
        }
      }
    }
  }

  /** A key is in the dictionary exactly when some kept line defines it, and
      its value is the one the last such line records: later lines overwrite
      earlier ones. */
  lemma FlatEntriesLastWins(lines: seq<string>, key: string)
    ensures key in FlatEntries(lines) <==>
      exists i :: 0 <= i < |lines| && Kept(lines[i]) && Entry(lines[i]).0 == key
    ensures key in FlatEntries(lines) ==>
      exists i :: 0 <= i < |lines| && Kept(lines[i]) && Entry(lines[i]) == (key, FlatEntries(lines)[key])
                  && forall j :: i < j < |lines| ==> !(Kept(lines[j]) && Entry(lines[j]).0 == key)
  {
    var es := LineEntries(lines);
    CollectLastWins(es, key);
    forall i | 0 <= i < |lines|
      ensures Sets(es[i], key) <==> Kept(lines[i]) && Entry(lines[i]).0 == key
    {
      assert es[i] == LineEntry(lines[i]);
    }
    if key in FlatEntries(lines) {
      var i :| 0 <= i < |es| && es[i] == Some((key, Collect(es)[key]))
               && forall j :: i < j < |es| ==> !Sets(es[j], key);
      assert es[i] == LineEntry(lines[i]);
      assert Kept(lines[i]) && Entry(lines[i]) == (key, FlatEntries(lines)[key]);
    }
  }

  lemma {:induction false} CollectSkipsNone(before: seq<Option<(string, string)>>, after: seq<Option<(string, string)>>)
    ensures Collect(before + [None] + after) == Collect(before + after)
  {
    if after == [] {
      assert (before + [None] + after)[..|before|] == before;
      assert before + after == before;
    } else {
      var init := after[..|after| - 1];
      CollectSkipsNone(before, init);
      assert (before + [None] + after)[..|before + [None] + after| - 1] == before + [None] + init;
      assert (before + after)[..|before + after| - 1] == before + init;
    }
  }

  /** A line that is not kept (blank, a comment, or without `=`) changes
      nothing, wherever it stands. */
  lemma DroppedLineIgnored(before: seq<string>, line: string, after: seq<string>)
    requires !Kept(line)
    ensures FlatEntries(before + [line] + after) == FlatEntries(before + after)
  {
    LineEntriesAppend(before + [line], after);
    LineEntriesAppend(before, [line]);
    LineEntriesAppend(before, after);
    assert LineEntries([line]) == [None];
    CollectSkipsNone(LineEntries(before), LineEntries(after));
  }

  /** A line whose first non-blank character is `#` is a comment and adds
      nothing, whatever follows. */
  lemma CommentIgnored(pad: string, text: string)
    requires AllSpace(pad)
    ensures !Kept(pad + "#" + text)
  {
    assert pad + "#" + text == pad + ("#" + text);
    StripKeepsFirst(pad, "#" + text);
  }

  /** An assignment line, with any whitespace around the key, the `=` and
      the line, records its key and value trimmed; the value may contain `=`. */
  lemma EntryOfAssignment(pad: string, key: string, gap: string, gap': string, value: string, pad': string)
    requires AllSpace(pad) && AllSpace(gap) && AllSpace(gap') && AllSpace(pad')
    requires key != [] && IsStripped(key) && key[0] != '#' && '=' !in key
    requires IsStripped(value) && (value == [] ==> gap' == [])
    ensures Kept(pad + key + gap + "=" + gap' + value + pad')
    ensures Entry(pad + key + gap + "=" + gap' + value + pad') == (key, value)
  {
    var core := key + gap + "=" + gap' + value;
    assert core[0] == key[0];
    assert core[|core| - 1] == if value == [] then '=' else value[|value| - 1];
    assert pad + key + gap + "=" + gap' + value + pad' == pad + core + pad';
    StripExact(pad, core, pad');
    assert core[|key + gap|] == '=';
    assert !StartsWith(core, "#");
    assert '=' !in key + gap by {
      forall i | 0 <= i < |key + gap| ensures (key + gap)[i] != '=' {
        if i >= |key| { assert IsSpace(gap[i - |key|]); }
      }
    }
    assert core == (key + gap) + "=" + (gap' + value);
    SplitOnceUnique(core, '=', key + gap, gap' + value);
    assert key + gap == [] + key + gap;
    StripExact([], key, gap);
    assert gap' + value == gap' + value + [];
    StripExact(gap', value, []);
  }

  /** The two-line file "  # comment" / "KEY = value " yields exactly the
      entry KEY -> value, for any such comment and assignment. */
  lemma CommentThenAssignment(pad: string, text: string, key: string, value: string)
    requires AllSpace(pad)
    requires key != [] && IsStripped(key) && key[0] != '#' && '=' !in key
    requires value != [] && IsStripped(value)
    ensures FlatEntries([pad + "#" + text, key + " = " + value + " "]) == map[key := value]
  {
    var comment, assignment := pad + "#" + text, key + " = " + value + " ";
    CommentIgnored(pad, text);
    assert assignment == [] + key + " " + "=" + " " + value + " ";
    EntryOfAssignment([], key, " ", " ", value, " ");
    FlatEntriesSnoc([comment], assignment);
    FlatEntriesSnoc([], comment);
    assert [] + [comment] == [comment] && [comment] + [assignment] == [comment, assignment];
  }

  // ---------------------------------------------------------------------------
  // From the flat dictionary to a Config (the `else` branch of from_file)

  /** `config_dict.get(key, default)` */
  function GetOr(dict: map<string, string>, key: string, default: string): string {
    if key in dict then dict[key] else default
  }

  /** `config_dict.get(key)`: the text, or None when the key is absent. */
  function GetText(dict: map<string, string>, key: string): Value {
    if key in dict then PyStr(dict[key]) else PyNone
  }

  /** `int(config_dict.get(key, default))` */
  function GetInt(dict: map<string, string>, key: string, default: string): Result<Value, ConfigError> {
    var text := GetOr(dict, key, default);
    match ParseInt(text)
    case Some(n) => Success(PyInt(n))
    case None => Failure(NotAnInteger(text))
  }

  /** The record the flat branch builds; the numeric fields are converted in
      the order the keyword arguments are written, so the first malformed
      one raises. */
  function FromDict(dict: map<string, string>): (r: Result<Config, ConfigError>)
    ensures r.Success? ==> WellTyped(r.value)
    ensures r.Failure? ==> r.error.NotAnInteger?
  {
    var maxSearchResults :- GetInt(dict, "SEARCH_RESULTS_PER_QUERY", "3");
    var searchTimeout :- GetInt(dict, "SEARCH_TIMEOUT", "240");
    var maxContentLength :- GetInt(dict, "SEARCH_CONTENT_MAX_LENGTH", "20000");
    var maxReflections :- GetInt(dict, "MAX_REFLECTIONS", "2");
    var maxParagraphs :- GetInt(dict, "MAX_PARAGRAPHS", "5");
    Success(Config(
      baseUrl := GetText(dict, "BASE_URL"),
      apiKey := GetText(dict, "API_KEY"),
      tavilyApiKey := GetText(dict, "TAVILY_API_KEY"),
      model := PyStr(GetOr(dict, "MODEL_NAME", "deepseek-chat")),
      maxSearchResults := maxSearchResults,
      searchTimeout := searchTimeout,
      maxContentLength := maxContentLength,
      maxReflections := maxReflections,
      maxParagraphs := maxParagraphs,
      outputDir := PyStr(GetOr(dict, "OUTPUT_DIR", "reports")),
      saveIntermediateStates := PyBool(Lower(GetOr(dict, "SAVE_INTERMEDIATE_STATES", "true")) == "true")))
  }

  /** The numeric keys of the flat format in conversion order, with their
      defaults. */
  const IntKeys: seq<string> :=
    ["SEARCH_RESULTS_PER_QUERY", "SEARCH_TIMEOUT", "SEARCH_CONTENT_MAX_LENGTH", "MAX_REFLECTIONS", "MAX_PARAGRAPHS"]
  const IntDefaults: seq<int> := [3, 240, 20000, 2, 5]

  /** The field that numeric key `IntKeys[k]` fills. */
  function IntField(c: Config, k: nat): Value
    requires k < 5
  {
    [c.maxSearchResults, c.searchTimeout, c.maxContentLength, c.maxReflections, c.maxParagraphs][k]
  }

  /** A present numeric key whose text is not an integer. */
  predicate Malformed(dict: map<string, string>, key: string) {
    key in dict && ParseInt(dict[key]).None?
  }

  lemma DefaultsParse()
    ensures ParseInt("3") == Some(3) && ParseInt("240") == Some(240) && ParseInt("20000") == Some(20000)
    ensures ParseInt("2") == Some(2) && ParseInt("5") == Some(5)
  {
    assert DigitsValue("2") == 2 && DigitsValue("3") == 3 && DigitsValue("5") == 5;
    assert DigitsValue("20") == 20 by { assert "20"[..1] == "2"; }
    assert DigitsValue("24") == 24 by { assert "24"[..1] == "2"; }
    assert DigitsValue("240") == 240 by { assert "240"[..2] == "24"; }
    assert DigitsValue("200") == 200 by { assert "200"[..2] == "20"; }
    assert DigitsValue("2000") == 2000 by { assert "2000"[..3] == "200"; }
    assert DigitsValue("20000") == 20000 by { assert "20000"[..4] == "2000"; }
  }

  /** One numeric field: `int()` of the file's text, or of a default text
      that reads as `n`, fails exactly when the key holds a malformed number. */
  lemma GetIntCases(dict: map<string, string>, key: string, default: string, n: int)
    requires ParseInt(default) == Some(n)
    ensures GetInt(dict, key, default).Failure? <==> Malformed(dict, key)
    ensures Malformed(dict, key) ==> GetInt(dict, key, default).error == NotAnInteger(dict[key])
    ensures !Malformed(dict, key) ==>
      GetInt(dict, key, default) == Success(PyInt(if key in dict then ParseInt(dict[key]).value else n))
  {
  }

  /** A flat file fails exactly when a numeric key is present with text that
      is not an integer, and the error carries the text of the first such key
      in conversion order: a malformed number never falls back to its default. */
  lemma FromDictFailure(dict: map<string, string>)
    ensures FromDict(dict).Failure? <==> exists k :: 0 <= k < 5 && Malformed(dict, IntKeys[k])
    ensures FromDict(dict).Failure? ==>
      exists k :: 0 <= k < 5 && Malformed(dict, IntKeys[k])
                  && (forall j :: 0 <= j < k ==> !Malformed(dict, IntKeys[j]))
                  && FromDict(dict).error == NotAnInteger(dict[IntKeys[k]])
  {
    DefaultsParse();
    GetIntCases(dict, IntKeys[0], "3", 3);
    GetIntCases(dict, IntKeys[1], "240", 240);
    GetIntCases(dict, IntKeys[2], "20000", 20000);
    GetIntCases(dict, IntKeys[3], "2", 2);
    GetIntCases(dict, IntKeys[4], "5", 5);
    var r := FromDict(dict);
    if Malformed(dict, IntKeys[0]) {
      assert r.error == NotAnInteger(dict[IntKeys[0]]);
    } else if Malformed(dict, IntKeys[1]) {
      assert r.error == NotAnInteger(dict[IntKeys[1]]);
    } else if Malformed(dict, IntKeys[2]) {
      assert r.error == NotAnInteger(dict[IntKeys[2]]);
    } else if Malformed(dict, IntKeys[3]) {
      assert r.error == NotAnInteger(dict[IntKeys[3]]);
    } else if Malformed(dict, IntKeys[4]) {
      assert r.error == NotAnInteger(dict[IntKeys[4]]);
    } else {
      assert r.Success?;
      assert forall k :: 0 <= k < 5 ==> !Malformed(dict, IntKeys[k]);
    }
  }

  /** On success each field holds the file's text or the default of the
      table: numbers parsed, strings verbatim (a present empty value stays
      ""), absent optional strings None, and the flag true when absent or
      spelled "true" in any case, false for any other present text. */
  lemma FromDictFields(dict: map<string, string>)
    requires FromDict(dict).Success?
    ensures var c := FromDict(dict).value;
      && (forall k :: 0 <= k < 5 ==>
            IntField(c, k) == PyInt(if IntKeys[k] in dict then ParseInt(dict[IntKeys[k]]).value else IntDefaults[k]))
      && c.baseUrl == (if "BASE_URL" in dict then PyStr(dict["BASE_URL"]) else PyNone)
      && c.apiKey == (if "API_KEY" in dict then PyStr(dict["API_KEY"]) else PyNone)
      && c.tavilyApiKey == (if "TAVILY_API_KEY" in dict then PyStr(dict["TAVILY_API_KEY"]) else PyNone)
      && c.model == PyStr(if "MODEL_NAME" in dict then dict["MODEL_NAME"] else "deepseek-chat")
      && c.outputDir == PyStr(if "OUTPUT_DIR" in dict then dict["OUTPUT_DIR"] else "reports")
      && c.saveIntermediateStates ==
           PyBool("SAVE_INTERMEDIATE_STATES" !in dict || SpellsTrue(dict["SAVE_INTERMEDIATE_STATES"]))
  {
    DefaultsParse();
    LowerIsTrue(GetOr(dict, "SAVE_INTERMEDIATE_STATES", "true"));
    assert SpellsTrue("true");
  }

  // ---------------------------------------------------------------------------
  // The Python-source branch of from_file

  /** The module-level names a Python configuration file defines. */
  type Namespace = map<string, Value>

  /** `getattr(module, name, default)`: a defined name gives its value, even
      a falsy one; only an undefined name gives the default. */
  function GetAttr(ns: Namespace, name: string, default: Value): Value {
    if name in ns then ns[name] else default
  }

  /** The `cls(...)` call of the Python-source branch: `base_url` falls back
      to None when falsy, everything else is stored as the module has it. */
  function ModuleConfig(ns: Namespace, baseUrl: Value, apiKey: Value, model: Value): Config {
    Config(
      baseUrl := Or(baseUrl, PyNone),
      apiKey := apiKey,
      tavilyApiKey := GetAttr(ns, "TAVILY_API_KEY", PyNone),
      model := model,
      maxSearchResults := GetAttr(ns, "SEARCH_RESULTS_PER_QUERY", PyInt(3)),
      searchTimeout := GetAttr(ns, "SEARCH_TIMEOUT", PyInt(240)),
      maxContentLength := GetAttr(ns, "SEARCH_CONTENT_MAX_LENGTH", PyInt(20000)),
      maxReflections := GetAttr(ns, "MAX_REFLECTIONS", PyInt(2)),
      maxParagraphs := GetAttr(ns, "MAX_PARAGRAPHS", PyInt(5)),
      outputDir := GetAttr(ns, "OUTPUT_DIR", PyStr("reports")),
      saveIntermediateStates := GetAttr(ns, "SAVE_INTERMEDIATE_STATES", PyBool(true)))
  }

  /** The profile named by `method` chooses which constants fill the
      connection fields; any other name leaves them unbound and raises. */
  function FromModule(ns: Namespace, profile: string): (r: Result<Config, ConfigError>)
    ensures r.Failure? <==> profile != "basic" && profile != "advanced"
    ensures r.Failure? ==> r.error == UnboundProfile
    ensures r.Success? ==> r.value.baseUrl == PyNone || Truthy(r.value.baseUrl)
    ensures profile == "basic" && "DEEPSEEK_MODEL" !in ns ==> r.value.model == PyStr("deepseek-chat")
    ensures profile == "advanced" && "OPENAI_MODEL" !in ns ==> r.value.model == PyStr("gpt-4o-mini")
  {
    if profile == "basic" then
      Success(ModuleConfig(ns,
        GetAttr(ns, "DEEPSEEK_BASE_URL", PyNone),
        GetAttr(ns, "DEEPSEEK_API_KEY", PyNone),
        GetAttr(ns, "DEEPSEEK_MODEL", PyStr("deepseek-chat"))))
    else if profile == "advanced" then
      Success(ModuleConfig(ns,
        GetAttr(ns, "OPENAI_BASE_URL", PyNone),
        GetAttr(ns, "OPENAI_API_KEY", PyNone),
        GetAttr(ns, "OPENAI_MODEL", PyStr("gpt-4o-mini"))))
    else
      Failure(UnboundProfile)
  }

  /** Which constants fill each field: the profile's own names for the
      endpoint, key and model (a truthy base URL kept, a falsy one None), the
      shared names for the rest, each with its default when undefined. */
  lemma FromModuleFields(ns: Namespace, profile: string)
    requires profile == "basic" || profile == "advanced"
    ensures var c := FromModule(ns, profile).value;
      && (profile == "basic" ==>
            && c.baseUrl == Or(GetAttr(ns, "DEEPSEEK_BASE_URL", PyNone), PyNone)
            && c.apiKey == GetAttr(ns, "DEEPSEEK_API_KEY", PyNone)
            && c.model == GetAttr(ns, "DEEPSEEK_MODEL", PyStr("deepseek-chat")))
      && (profile == "advanced" ==>
            && c.baseUrl == Or(GetAttr(ns, "OPENAI_BASE_URL", PyNone), PyNone)
            && c.apiKey == GetAttr(ns, "OPENAI_API_KEY", PyNone)
            && c.model == GetAttr(ns, "OPENAI_MODEL", PyStr("gpt-4o-mini")))
      && c.tavilyApiKey == GetAttr(ns, "TAVILY_API_KEY", PyNone)
      && (forall k :: 0 <= k < 5 ==> IntField(c, k) == GetAttr(ns, IntKeys[k], PyInt(IntDefaults[k])))
      && c.outputDir == GetAttr(ns, "OUTPUT_DIR", PyStr("reports"))
      && c.saveIntermediateStates == GetAttr(ns, "SAVE_INTERMEDIATE_STATES", PyBool(true))
  {
  }

  /** `name` in the module holds what `key` holds in the flat file, as text. */
  predicate SameText(dict: map<string, string>, key: string, ns: Namespace, name: string) {
    && (key in dict <==> name in ns)
    && (key in dict ==> ns[name] == PyStr(dict[key]))
  }

  /** The module holds the integer the flat file's text denotes. */
  predicate SameInt(dict: map<string, string>, ns: Namespace, key: string) {
    && (key in dict <==> key in ns)
    && (key in dict ==> ParseInt(dict[key]).Some? && ns[key] == PyInt(ParseInt(dict[key]).value))
  }

  /** A Python configuration that says what a flat file says, in the names
      of the basic profile and with numbers and the flag already converted. */
  predicate BasicEquivalent(dict: map<string, string>, ns: Namespace) {
    && SameText(dict, "BASE_URL", ns, "DEEPSEEK_BASE_URL")
    && SameText(dict, "API_KEY", ns, "DEEPSEEK_API_KEY")
    && SameText(dict, "MODEL_NAME", ns, "DEEPSEEK_MODEL")
    && SameText(dict, "TAVILY_API_KEY", ns, "TAVILY_API_KEY")
    && SameText(dict, "OUTPUT_DIR", ns, "OUTPUT_DIR")
    && (forall k :: 0 <= k < 5 ==> SameInt(dict, ns, IntKeys[k]))
    && ("SAVE_INTERMEDIATE_STATES" in dict <==> "SAVE_INTERMEDIATE_STATES" in ns)
    && ("SAVE_INTERMEDIATE_STATES" in dict ==>
          ns["SAVE_INTERMEDIATE_STATES"] == PyBool(SpellsTrue(dict["SAVE_INTERMEDIATE_STATES"])))
  }

  /** The two formats agree: the same settings written as a flat file or as
      basic-profile Python constants give the same Config, defaults included,
      provided the flat file does not set BASE_URL to "" (see EmptyBaseUrl). */
  lemma FormatsAgree(dict: map<string, string>, ns: Namespace)
    requires BasicEquivalent(dict, ns)
    requires "BASE_URL" in dict ==> dict["BASE_URL"] != ""
    ensures FromDict(dict).Success?
    ensures FromModule(ns, "basic") == FromDict(dict)
  {
    FromDictFailure(dict);
    assert forall k :: 0 <= k < 5 ==> !Malformed(dict, IntKeys[k]) by {
      forall k | 0 <= k < 5 ensures !Malformed(dict, IntKeys[k]) {
        assert SameInt(dict, ns, IntKeys[k]);
      }
    }
    FromDictFields(dict);
    var c, m := FromDict(dict).value, FromModule(ns, "basic").value;
    forall k | 0 <= k < 5 ensures IntField(m, k) == IntField(c, k) {
      assert SameInt(dict, ns, IntKeys[k]);
    }
    assert IntField(m, 0) == IntField(c, 0) && IntField(m, 1) == IntField(c, 1);
    assert IntField(m, 2) == IntField(c, 2) && IntField(m, 3) == IntField(c, 3);
    assert IntField(m, 4) == IntField(c, 4);
  }

  /** Where the formats part: an empty BASE_URL stays "" in a flat file but
      becomes None in a Python configuration. */
  lemma EmptyBaseUrl(dict: map<string, string>, ns: Namespace)
    requires FromDict(dict).Success? && "BASE_URL" in dict && dict["BASE_URL"] == ""
    requires "DEEPSEEK_BASE_URL" in ns && ns["DEEPSEEK_BASE_URL"] == PyStr("")
    ensures FromDict(dict).value.baseUrl == PyStr("")
    ensures FromModule(ns, "basic").value.baseUrl == PyNone
  {
    FromDictFields(dict);
  }

  // ---------------------------------------------------------------------------
  // Config.from_file and load_config

  /** What the resolver can see of the disk: the existing files with their
      lines, and for each Python file that executes without raising, the
      names it defines. */
  datatype FileSystem = FileSystem(files: map<string, seq<string>>, modules: map<string, Namespace>)

  /** `os.path.exists(path)` */
  predicate Exists(fs: FileSystem, path: string) {
    path in fs.files
  }

  /** `Config.from_file(path, method)`: a `.py` path is executed as Python,
      any other path is read as KEY=VALUE lines (a missing one as no lines). */
  function ConfigOfFile(path: string, profile: string, fs: FileSystem): (r: Result<Config, ConfigError>)
    ensures !EndsWith(path, ".py") && r.Failure? ==> r.error.NotAnInteger?
    ensures EndsWith(path, ".py") && r.Failure? ==> !r.error.NotAnInteger?
    ensures !EndsWith(path, ".py") && !Exists(fs, path) ==> r == FromDict(map[])
    ensures !EndsWith(path, ".py") && Exists(fs, path) ==> r == FromDict(FlatEntries(fs.files[path]))
    ensures EndsWith(path, ".py") && Exists(fs, path) && path in fs.modules ==> r == FromModule(fs.modules[path], profile)
    ensures EndsWith(path, ".py") && Exists(fs, path) && path !in fs.modules ==> r == Failure(LoadFailed)
    ensures EndsWith(path, ".py") && !Exists(fs, path) ==> r == Failure(NotFound)
  {
    if EndsWith(path, ".py") then
      if !Exists(fs, path) then Failure(NotFound)
      else if path !in fs.modules then Failure(LoadFailed)
      else FromModule(fs.modules[path], profile)
    else
      FromDict(FlatEntries(if Exists(fs, path) then fs.files[path] else []))
  }

  method FromFile(path: string, profile: string, fs: FileSystem) returns (r: Result<Config, ConfigError>)
    ensures r == ConfigOfFile(path, profile, fs)
  {
    if EndsWith(path, ".py") {
      if !Exists(fs, path) {
        return Failure(NotFound);
      }
      if path !in fs.modules {
        return Failure(LoadFailed);
      }
      return FromModule(fs.modules[path], profile);
    }
    var configDict: map<string, string> := map[];
    if Exists(fs, path) {
      var lines := fs.files[path];
      for i := 0 to |lines|
        invariant configDict == FlatEntries(lines[..i])
      {
        var line := Strip(lines[i]);
        if line != [] && !StartsWith(line, "#") && '=' in line {
          var parts := SplitOnce(line, '=');
          configDict := configDict[Strip(parts.0) := Strip(parts.1)];
        }
        FlatEntriesSnoc(lines[..i], lines[i]);
        assert lines[..i + 1] == lines[..i] + [lines[i]];
      }
      assert lines[..|lines|] == lines;
    }
    r := FromDict(configDict);
  }

  /** The files probed, in order, when no path is given. */
  const DefaultPaths: seq<string> := ["myconfig.py", "config.env", ".env"]

  /** The first of `paths` that exists. */
  function FirstExisting(paths: seq<string>, fs: FileSystem): (r: Option<string>)
    ensures r.None? <==> forall i :: 0 <= i < |paths| ==> !Exists(fs, paths[i])
    ensures r.Some? ==> exists i :: 0 <= i < |paths| && paths[i] == r.value && Exists(fs, r.value)
                                     && forall j :: 0 <= j < i ==> !Exists(fs, paths[j])
  {
    if paths == [] then None
    else if Exists(fs, paths[0]) then Some(paths[0])
    else FirstExisting(paths[1..], fs)
  }

  /** The file `load_config` reads: a non-empty path given by the caller,
      which must exist, or else the first default that exists. */
  function SourcePath(configFile: Option<string>, fs: FileSystem): (r: Result<string, ConfigError>)
    ensures r.Failure? ==> r.error == NotFound
    ensures r.Success? ==> Exists(fs, r.value)
    ensures configFile.Some? && configFile.value != "" && Exists(fs, configFile.value) ==>
      r == Success(configFile.value)
    ensures configFile.Some? && configFile.value != "" && !Exists(fs, configFile.value) ==>
      r == Failure(NotFound)
    ensures (configFile.None? || configFile.value == "") ==>
      r == (if FirstExisting(DefaultPaths, fs).Some? then Success(FirstExisting(DefaultPaths, fs).value) else Failure(NotFound))
  {
    if configFile.Some? && configFile.value != "" then
      if Exists(fs, configFile.value) then Success(configFile.value) else Failure(NotFound)
    else
      match FirstExisting(DefaultPaths, fs)
      case Some(path) => Success(path)
      case None => Failure(NotFound)
  }

  /** `load_config(config_file, method)`: never returns a configuration that
      fails validation. */
  function Loaded(configFile: Option<string>, profile: string, fs: FileSystem): (r: Result<Config, ConfigError>)
    ensures r.Success? ==> Validate(r.value)
    ensures configFile.Some? && configFile.value != "" && !Exists(fs, configFile.value) ==> r == Failure(NotFound)
    ensures var source := SourcePath(configFile, fs);
      source.Success? && ConfigOfFile(source.value, profile, fs).Success?
      && Validate(ConfigOfFile(source.value, profile, fs).value) ==>
        r == ConfigOfFile(source.value, profile, fs)
  {
    var path :- SourcePath(configFile, fs);
    Checked(ConfigOfFile(path, profile, fs))
  }

  /** The validation step of `load_config`: a parse error passes through,
      a parsed configuration must validate. */
  function Checked(r: Result<Config, ConfigError>): (r': Result<Config, ConfigError>)
    ensures r'.Success? ==> Validate(r'.value)
    ensures r.Failure? ==> r' == r
    ensures r.Success? ==> (r'.Success? <==> Validate(r.value))
    ensures r'.Success? ==> r' == r
    ensures r.Success? && r'.Failure? ==> r'.error == ValidationFailed
  {
    match r
    case Failure(e) => Failure(e)
    case Success(config) => if Validate(config) then Success(config) else Failure(ValidationFailed)
  }

  /** Loading a named flat file is validating what its lines give. */
  lemma LoadedFlat(path: string, profile: string, fs: FileSystem)
    requires path != "" && !EndsWith(path, ".py") && Exists(fs, path)
    ensures Loaded(Some(path), profile, fs) == Checked(FromDict(FlatEntries(fs.files[path])))
  {
    assert SourcePath(Some(path), fs) == Success(path);
    assert ConfigOfFile(path, profile, fs) == FromDict(FlatEntries(fs.files[path]));
  }

  /** Loading a named Python file is validating what its profile constants
      give; a file that raises while executing fails the load. */
  lemma LoadedModule(path: string, profile: string, fs: FileSystem)
    requires path != "" && EndsWith(path, ".py") && Exists(fs, path)
    ensures path in fs.modules ==> Loaded(Some(path), profile, fs) == Checked(FromModule(fs.modules[path], profile))
    ensures path !in fs.modules ==> Loaded(Some(path), profile, fs) == Failure(LoadFailed)
  {
    assert SourcePath(Some(path), fs) == Success(path);
  }

  method LoadConfig(configFile: Option<string>, profile: string, fs: FileSystem) returns (r: Result<Config, ConfigError>)
    ensures r == Loaded(configFile, profile, fs)
  {
    var fileToLoad: string;
    if configFile.Some? && configFile.value != "" {
      if !Exists(fs, configFile.value) {
        return Failure(NotFound);
      }
      fileToLoad := configFile.value;
    } else {
      var found: Option<string> := None;
      for i := 0 to |DefaultPaths|
        invariant FirstExisting(DefaultPaths, fs) == FirstExisting(DefaultPaths[i..], fs)
        invariant found.None?
      {
        if Exists(fs, DefaultPaths[i]) {
          found := Some(DefaultPaths[i]);
          break;
        }
        assert DefaultPaths[i..][1..] == DefaultPaths[i + 1..];
      }
      if found.None? {
        return Failure(NotFound);
      }
      fileToLoad := found.value;
    }
    var config := FromFile(fileToLoad, profile, fs);
    if config.Failure? {
      return config;
    }
    if !Validate(config.value) {
      return Failure(ValidationFailed);
    }
    return config;
  }

  /** The Python-source branch converts nothing: a constant defined in the
      module is stored as it is, so `SEARCH_TIMEOUT = "240"` stays a string. */
  lemma ModuleStoresAsIs(ns: Namespace, profile: string)
    requires profile == "basic" || profile == "advanced"
    ensures var c := FromModule(ns, profile).value;
      && (forall k :: 0 <= k < 5 && IntKeys[k] in ns ==> IntField(c, k) == ns[IntKeys[k]])
      && ("TAVILY_API_KEY" in ns ==> c.tavilyApiKey == ns["TAVILY_API_KEY"])
      && ("OUTPUT_DIR" in ns ==> c.outputDir == ns["OUTPUT_DIR"])
      && ("SAVE_INTERMEDIATE_STATES" in ns ==> c.saveIntermediateStates == ns["SAVE_INTERMEDIATE_STATES"])
  {
  }

  /** With no explicit path (None or ""), the defaults are probed in order:
      myconfig.py before config.env before .env. */
  lemma DefaultProbeOrder(configFile: Option<string>, fs: FileSystem)
    requires configFile.None? || configFile.value == ""
    ensures SourcePath(configFile, fs) ==
      if Exists(fs, "myconfig.py") then Success("myconfig.py")
      else if Exists(fs, "config.env") then Success("config.env")
      else if Exists(fs, ".env") then Success(".env")
      else Failure(NotFound)
  {
    var p0, p1, p2 := DefaultPaths, DefaultPaths[1..], DefaultPaths[2..];
    assert p1[1..] == p2 && p2[1..] == [];
    assert FirstExisting(p2, fs) == if Exists(fs, ".env") then Some(".env") else None;
    assert FirstExisting(p1, fs) == if Exists(fs, "config.env") then Some("config.env") else FirstExisting(p2, fs);
    assert FirstExisting(p0, fs) == if Exists(fs, "myconfig.py") then Some("myconfig.py") else FirstExisting(p1, fs);
  }

  /** Probing behaves as if the first existing default had been named. */
  lemma ProbeAsNamed(configFile: Option<string>, profile: string, fs: FileSystem)
    requires configFile.None? || configFile.value == ""
    ensures FirstExisting(DefaultPaths, fs).Some? ==>
      Loaded(configFile, profile, fs) == Loaded(Some(FirstExisting(DefaultPaths, fs).value), profile, fs)
  {
    if FirstExisting(DefaultPaths, fs).Some? {
      var p := FirstExisting(DefaultPaths, fs).value;
      assert p in DefaultPaths;
      assert p != "";
    }
  }

  /** Resolution reports a missing file exactly when the named file does not
      exist, or, with no name given, when none of the defaults exists. */
  lemma NotFoundExactly(configFile: Option<string>, profile: string, fs: FileSystem)
    ensures Loaded(configFile, profile, fs) == Failure(NotFound) <==>
      if configFile.Some? && configFile.value != "" then !Exists(fs, configFile.value)
      else forall i :: 0 <= i < |DefaultPaths| ==> !Exists(fs, DefaultPaths[i])
  {
    var source := SourcePath(configFile, fs);
    if source.Success? {
      var path := source.value;
      var c := ConfigOfFile(path, profile, fs);
      assert c.Failure? ==> c.error != NotFound;
    }
  }

  /** A malformed number in a flat file fails the load with that text, ahead
      of any missing credential: the load never falls back to the default. */
  lemma MalformedNumberFails(path: string, profile: string, fs: FileSystem, k: nat)
    requires path != "" && !EndsWith(path, ".py") && Exists(fs, path)
    requires k < 5 && Malformed(FlatEntries(fs.files[path]), IntKeys[k])
    ensures Loaded(Some(path), profile, fs).Failure?
    ensures Loaded(Some(path), profile, fs).error.NotAnInteger?
  {
    var dict := FlatEntries(fs.files[path]);
    FromDictFailure(dict);
    LoadedFlat(path, profile, fs);
  }

  /** A flat file with both credentials and well-formed numbers loads: the
      credentials are the file's text and absent numbers take their defaults. */
  lemma FlatFileLoads(path: string, profile: string, fs: FileSystem)
    requires path != "" && !EndsWith(path, ".py") && Exists(fs, path)
    requires var dict := FlatEntries(fs.files[path]);
      && "API_KEY" in dict && dict["API_KEY"] != ""
      && "TAVILY_API_KEY" in dict && dict["TAVILY_API_KEY"] != ""
      && forall k :: 0 <= k < 5 ==> !Malformed(dict, IntKeys[k])
    ensures var dict := FlatEntries(fs.files[path]);
      && Loaded(Some(path), profile, fs).Success?
      && Loaded(Some(path), profile, fs).value.apiKey == PyStr(dict["API_KEY"])
      && Loaded(Some(path), profile, fs).value.tavilyApiKey == PyStr(dict["TAVILY_API_KEY"])
      && forall k :: 0 <= k < 5 && IntKeys[k] !in dict ==>
           IntField(Loaded(Some(path), profile, fs).value, k) == PyInt(IntDefaults[k])
  {
    var dict := FlatEntries(fs.files[path]);
    FromDictFailure(dict);
    FromDictFields(dict);
    LoadedFlat(path, profile, fs);
  }

  /** A flat file without API_KEY fails validation and the API key is the
      credential reported, whatever else it holds. */
  lemma FlatMissingApiKey(path: string, profile: string, fs: FileSystem)
    requires path != "" && !EndsWith(path, ".py") && Exists(fs, path)
    requires var dict := FlatEntries(fs.files[path]);
      "API_KEY" !in dict && forall k :: 0 <= k < 5 ==> !Malformed(dict, IntKeys[k])
    ensures Loaded(Some(path), profile, fs) == Failure(ValidationFailed)
    ensures MissingCredential(ConfigOfFile(path, profile, fs).value) == Some(ApiKey)
  {
    var dict := FlatEntries(fs.files[path]);
    FromDictFailure(dict);
    FromDictFields(dict);
    LoadedFlat(path, profile, fs);
  }
}
