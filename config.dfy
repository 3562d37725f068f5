/**
  Bazarr's settings: reading them out of the configuration file as typed values
  (`get_settings`), normalising and storing what the settings form submits
  (`save_settings`), list-valued options (`get_array_from`) and the proxy address
  (`configure_proxy_func`).
 */
module Config {
  import opened Wrappers
  import opened Text
  import opened CacheRegion

  // ---------------------------------------------------------------- key lists

  const IGNORE_KEYS: set<string> := {"flask_secret_key", "page_size", "page_size_manual_search", "throtteled_providers"}
  const RAW_KEYS: set<string> := {"movie_default_forced", "serie_default_forced"}
  const ARRAY_KEYS: set<string> := {"excluded_tags", "exclude", "subzero_mods", "excluded_series_types", "enabled_providers"}
  const STR_KEYS: set<string> := {"chmod"}
  /** The strings of `empty_values`; the list also holds None and the empty list. */
  const EMPTY_TEXTS: set<string> := {"", "None", "null", "undefined"}

  // ---------------------------------------------------------------- get_array_from

  /**
    `get_array_from(property)`: nothing for an empty or missing value, the literal when it
    holds a `[`, the comma-separated parts when it holds a `,`, the value alone otherwise.
    `literalEval` is Python's `ast.literal_eval` applied to a list literal of strings.
   */
  function GetArrayFrom(property: Option<string>, literalEval: string -> seq<string>): (r: seq<string>)
    ensures property.None? || property.value == "" ==> r == []
    ensures property.Some? && property.value != "" && '[' in property.value ==> r == literalEval(property.value)
    ensures property.Some? && property.value != "" && '[' !in property.value && ',' !in property.value ==>
      r == [property.value]
    ensures property.Some? && '[' !in property.value && ',' in property.value ==>
      |r| >= 2 && Join(r, ",") == property.value && forall i :: 0 <= i < |r| ==> ',' !in r[i]
  {
    if property.None? || property.value == "" then []
    else if '[' in property.value then literalEval(property.value)
    else if ',' in property.value then
      JoinSplit(property.value, ',');
      SplitHasSeparator(property.value, ',');
      Split(property.value, ',')
    else [property.value]
  }

  /** A text holding the separator splits into at least two parts. */
  lemma {:induction false} SplitHasSeparator(s: string, c: char)
    requires c in s
    ensures |Split(s, c)| >= 2
    decreases |s|
  {
    if s[0] != c {
      SplitHasSeparator(s[1..], c);
    }
  }

  /**
    Joining a list of mods with "," and reading it back gives the list again, provided no
    mod holds "," or "[" and the list is not the single empty mod.
   */
  lemma ArrayRoundTrip(mods: seq<string>, literalEval: string -> seq<string>)
    requires forall i :: 0 <= i < |mods| ==> ',' !in mods[i] && '[' !in mods[i]
    requires mods != [""]
    ensures GetArrayFrom(Some(Join(mods, ",")), literalEval) == mods
  {
    var joined := Join(mods, ",");
    JoinHasNo(mods, '[');
    if |mods| == 0 {
    } else if |mods| == 1 {
    } else {
      assert joined == mods[0] + "," + Join(mods[1..], ",");
      assert joined[|mods[0]|] == ',';
      SplitJoin(mods, ',');
    }
  }

  /** A character in no part and not the separator is not in the joined text. */
  lemma {:induction false} JoinHasNo(parts: seq<string>, c: char)
    requires c != ','
    requires forall i :: 0 <= i < |parts| ==> c !in parts[i]
    ensures c !in Join(parts, ",")
  {
    if |parts| > 1 {
      JoinHasNo(parts[1..], c);
      assert Join(parts, ",") == parts[0] + "," + Join(parts[1..], ",");
    }
  }

  // ---------------------------------------------------------------- get_settings

  /** A setting as `get_settings` hands it out. */
  datatype Value = Str(s: string) | Bool(b: bool) | Int(i: int) | List(items: seq<string>)

  /**
    The value `get_settings` gives an option, or None when it leaves the option out:
    ignored keys and empty non-array values are left out, raw keys pass through, array
    keys are read as lists, "True"/"False" become booleans and other values integers
    where they parse (except for `chmod`).
   */
  function ConvertSetting(key: string, value: string, literalEval: string -> seq<string>): (r: Option<Value>)
    ensures key in IGNORE_KEYS ==> r.None?
    ensures key !in IGNORE_KEYS && key in RAW_KEYS ==> r == Some(Str(value))
    ensures key !in IGNORE_KEYS && key !in RAW_KEYS && value in EMPTY_TEXTS ==>
      r == (if key in ARRAY_KEYS then Some(List([])) else None)
    ensures key !in IGNORE_KEYS && key !in RAW_KEYS && value !in EMPTY_TEXTS && key in ARRAY_KEYS ==>
      r == Some(List(GetArrayFrom(Some(value), literalEval)))
    ensures key !in IGNORE_KEYS && key !in RAW_KEYS && key !in ARRAY_KEYS && (value == "True" || value == "False") ==>
      r == Some(Bool(value == "True"))
    ensures (key !in IGNORE_KEYS && key !in RAW_KEYS && key !in ARRAY_KEYS && key !in STR_KEYS &&
             value !in EMPTY_TEXTS && value != "True" && value != "False" && ParseInt(value).Some?) ==>
        r == Some(Int(ParseInt(value).value))
    ensures r.Some? && r.value.Bool? ==> key !in RAW_KEYS && value == (if r.value.b then "True" else "False")
    ensures r.Some? && r.value.Int? ==> key !in STR_KEYS && key !in ARRAY_KEYS && ParseInt(value) == Some(r.value.i)
    ensures r.Some? && r.value.Str? && key !in RAW_KEYS ==>
      r.value.s == value && (key in STR_KEYS || ParseInt(value).None?) && value != "True" && value != "False"
    ensures (key !in IGNORE_KEYS && key !in RAW_KEYS && key !in ARRAY_KEYS && value !in EMPTY_TEXTS &&
             value != "True" && value != "False" && (key in STR_KEYS || ParseInt(value).None?)) ==>
        r == Some(Str(value))
    ensures r.None? ==> key in IGNORE_KEYS || (key !in RAW_KEYS && key !in ARRAY_KEYS && value in EMPTY_TEXTS)
  {
    if key in IGNORE_KEYS then None
    else if key in RAW_KEYS then Some(Str(value))
    else if value in EMPTY_TEXTS then
      if key in ARRAY_KEYS then Some(List([])) else None
    else if key in ARRAY_KEYS then Some(List(GetArrayFrom(Some(value), literalEval)))
    else if value == "True" then Some(Bool(true))
    else if value == "False" then Some(Bool(false))
    else if key !in STR_KEYS && ParseInt(value).Some? then Some(Int(ParseInt(value).value))
    else Some(Str(value))
  }

  /** An integer written out by `str()` is read back as that integer. */
  lemma IntSettingRoundTrip(key: string, n: int, literalEval: string -> seq<string>)
    requires key !in IGNORE_KEYS && key !in RAW_KEYS && key !in ARRAY_KEYS && key !in STR_KEYS
    ensures ConvertSetting(key, IntToString(n), literalEval) == Some(Int(n))
  {
    var s := IntToString(n);
    ParseIntToString(n);
    NumeralIsNoWord(s);
  }

  /** A number written with an underscore between digit groups, such as "1_000", is read as the number without it. */
  lemma GroupedIntSetting(key: string, a: string, b: string, literalEval: string -> seq<string>)
    requires key !in IGNORE_KEYS && key !in RAW_KEYS && key !in ARRAY_KEYS && key !in STR_KEYS
    requires |a| > 0 && |b| > 0 && AllDigits(a) && AllDigits(b)
    ensures ConvertSetting(key, a + "_" + b, literalEval) == Some(Int(DigitsValue(a + b)))
  {
    DigitGroupsJoin(a, b);
    DigitsAreLiteral(a + b);
    ParseLiteral(a + b);
    assert (a + "_" + b)[0] == a[0];
    NumeralIsNoWord(a + "_" + b);
  }

  /** A text starting with a sign or a digit is neither an empty value nor a boolean. */
  lemma NumeralIsNoWord(s: string)
    requires |s| > 0 && (s[0] == '-' || IsDigit(s[0]))
    ensures s !in EMPTY_TEXTS && s != "True" && s != "False"
  {
    assert "None"[0] == 'N' && "null"[0] == 'n' && "undefined"[0] == 'u';
    assert "True"[0] == 'T' && "False"[0] == 'F';
  }

  /** A section's options in file order. */
  type Items = seq<(string, string)>

  /** The dictionary of one section after its first `n` options. */
  function SectionValues(items: Items, literalEval: string -> seq<string>): map<string, Value>
  {
    if |items| == 0 then map[]
    else
      var before := SectionValues(items[..|items| - 1], literalEval);
      var (key, value) := items[|items| - 1];
      match ConvertSetting(key, value, literalEval)
      case None => before
      case Some(v) => before[key := v]
  }

  /** Every option handed out is one of the section's, never an ignored one, with the value of its last occurrence. */
  lemma {:induction false} SectionValuesFromItems(items: Items, literalEval: string -> seq<string>, key: string)
    requires key in SectionValues(items, literalEval)
    ensures key !in IGNORE_KEYS
    ensures exists i :: (0 <= i < |items| && items[i].0 == key &&
      ConvertSetting(key, items[i].1, literalEval) == Some(SectionValues(items, literalEval)[key]))
  {
    var init := items[..|items| - 1];
    var (k, v) := items[|items| - 1];
    if k == key && ConvertSetting(k, v, literalEval).Some? {
    } else {
      SectionValuesFromItems(init, literalEval, key);
      var i :| 0 <= i < |init| && init[i].0 == key &&
        ConvertSetting(key, init[i].1, literalEval) == Some(SectionValues(init, literalEval)[key]);
      assert items[i] == init[i];
    }
  }

  /**
    Conversely, an option is handed out with the value of its last occurrence that is
    not left out; an occurrence left out keeps the value before it.
   */
  lemma {:induction false} SectionValuesLastKept(items: Items, literalEval: string -> seq<string>, i: nat)
    requires i < |items| && ConvertSetting(items[i].0, items[i].1, literalEval).Some?
    requires forall j :: i < j < |items| && items[j].0 == items[i].0 ==>
      ConvertSetting(items[i].0, items[j].1, literalEval).None?
    ensures items[i].0 in SectionValues(items, literalEval)
    ensures SectionValues(items, literalEval)[items[i].0] == ConvertSetting(items[i].0, items[i].1, literalEval).value
    decreases |items|
  {
    var init := items[..|items| - 1];
    if i < |items| - 1 {
      assert init[i] == items[i];
      forall j | i < j < |init| && init[j].0 == init[i].0
        ensures ConvertSetting(init[i].0, init[j].1, literalEval).None?
      {
        assert init[j] == items[j];
      }
      SectionValuesLastKept(init, literalEval, i);
    }
  }

  /** The configuration file: its sections in order, each with its options. */
  type Sections = seq<(string, Items)>

  function SettingsOf(sections: Sections, literalEval: string -> seq<string>): map<string, map<string, Value>>
  {
    if |sections| == 0 then map[]
    else
      var (name, items) := sections[|sections| - 1];
      SettingsOf(sections[..|sections| - 1], literalEval)[name := SectionValues(items, literalEval)]
  }

  /** `get_settings`: a dictionary per section, filled option by option. */
  method GetSettings(sections: Sections, literalEval: string -> seq<string>)
    returns (result: map<string, map<string, Value>>)
    ensures result == SettingsOf(sections, literalEval)
    ensures forall name :: name in result ==> exists j :: 0 <= j < |sections| && sections[j].0 == name
  {
    result := map[];
    var j := 0;
    while j < |sections|
      invariant 0 <= j <= |sections|
      invariant result == SettingsOf(sections[..j], literalEval)
      invariant forall name :: name in result ==> exists k :: 0 <= k < j && sections[k].0 == name
    {
      var (name, items) := sections[j];
      var valuesDict: map<string, Value> := map[];
      var i := 0;
      while i < |items|
        invariant 0 <= i <= |items|
        invariant valuesDict == SectionValues(items[..i], literalEval)
      {
        var (key, value) := items[i];
        assert items[..i + 1][..i] == items[..i];
        var converted := ConvertSetting(key, value, literalEval);
        if converted.Some? {
          valuesDict := valuesDict[key := converted.value];
        }
        i := i + 1;
      }
      assert items[..i] == items;
      assert sections[..j + 1][..j] == sections[..j];
      result := result[name := valuesDict];
      j := j + 1;
    }
    assert sections[..j] == sections;
  }

  // ---------------------------------------------------------------- save_settings

  /** A submitted form value: a text, a list of texts, or None. */
  datatype FormValue = Text(s: string) | Many(items: seq<string>) | Null

  /** `value in empty_values` */
  predicate IsEmptyValue(v: FormValue) {
    v == Null || v == Many([]) || (v.Text? && v.s in EMPTY_TEXTS)
  }

  /** `str(value)`: a list prints as its repr, with each item quoted. */
  function Repr(v: FormValue): string {
    match v
    case Text(s) => s
    case Null => "None"
    case Many(items) => "[" + Join(seq(|items|, i requires 0 <= i < |items| => "'" + items[i] + "'"), ", ") + "]"
  }

  /** The exceptions `save_settings` lets escape. */
  datatype ConfigError =
    | IndexError  // a key with too few `-` parts, or `value[0]` of an empty value
    | TypeError   // `value[0]` of None, or joining a list into the mods
    | AttributeError  // hashing a list, or `startswith` on a list
    | KeyError    // a section the configuration does not have

  /** `md5(...).hexdigest()`, which is not part of this model. */
  type Hash = string -> string

  /** The form key of an option: `settings-<section>-<option>`. */
  function SettingKey(section: string, option: string): string {
    "settings-" + section + "-" + option
  }

  const PASSWORD_KEY := SettingKey("auth", "password")

  /** A form key splits back into "settings", its section and its option. */
  lemma KeyParts(section: string, option: string)
    requires '-' !in section && '-' !in option
    ensures Split(SettingKey(section, option), '-') == ["settings", section, option]
  {
    SplitJoin(["settings", section, option], '-');
    assert Join(["settings", section, option], "-") == SettingKey(section, option) by {
      assert Join([option], "-") == option;
      assert Join([section, option], "-") == section + "-" + option;
    }
  }

  /**
    The normalisation a submitted value goes through before it is stored: a one-item
    list is unwrapped for a non-array key ("None", "null" and "undefined" then become
    None), an array whose first item is empty becomes the empty list, "true"/"false"
    are capitalised, and a new password is hashed.
   */
  function NormalizeValue(key: string, value: FormValue, storedPassword: Option<string>, md5: Hash)
    : (r: Result<FormValue, ConfigError>)
    ensures (value.Many? && |value.items| == 1 && LastPart(key) !in ARRAY_KEYS && value.items[0] !in {"true", "false"} &&
      key != PASSWORD_KEY) ==>
        r == Ok(if value.items[0] in EMPTY_TEXTS - {""} then Null else Text(value.items[0]))
    ensures LastPart(key) in ARRAY_KEYS && value.Many? && |value.items| > 0 && value.items[0] in EMPTY_TEXTS ==>
      r == Ok(Many([]))
    ensures LastPart(key) in ARRAY_KEYS && (value.Null? || value == Text("") || value == Many([])) ==> r.Err?
    ensures key != PASSWORD_KEY && value == Text("true") ==> r == Ok(Text("True"))
    ensures key != PASSWORD_KEY && value == Text("false") ==> r == Ok(Text("False"))
    ensures (key == PASSWORD_KEY && value.Text? && value.s !in {"true", "false"} &&
      storedPassword != Some(value.s)) ==> r == Ok(Text(md5(value.s)))
  {
    PasswordIsPlain();
    var arrayKey := LastPart(key) in ARRAY_KEYS;
    var checked := EmptyArray(arrayKey, Unwrap(arrayKey, value));
    if checked.Err? then checked
    else
      var v := Capitalize(checked.value);
      if key != PASSWORD_KEY then Ok(v)
      else HashPassword(v, storedPassword, md5)
  }

  /** `key.split('-')[-1]` */
  function LastPart(key: string): string {
    var parts := Split(key, '-');
    parts[|parts| - 1]
  }

  lemma PasswordIsPlain()
    ensures LastPart(PASSWORD_KEY) == "password" && "password" !in ARRAY_KEYS
  {
    PasswordKeyParts();
    PasswordNotArray();
  }

  lemma PasswordKeyParts()
    ensures LastPart(PASSWORD_KEY) == "password"
  {
    KeyParts("auth", "password");
  }

  lemma PasswordNotArray()
    ensures "password" !in ARRAY_KEYS
  {
  }

  /** A one-item list for a non-array option becomes its item, or None for the empty texts other than "". */
  function Unwrap(arrayKey: bool, value: FormValue): (r: FormValue)
    ensures !(value.Many? && |value.items| == 1 && !arrayKey) ==> r == value
  {
    if value.Many? && |value.items| == 1 && !arrayKey then
      (if value.items[0] in EMPTY_TEXTS - {""} then Null else Text(value.items[0]))
    else value
  }

  /**
    `value[0] in empty_values` for an array option: a list whose first item is empty
    becomes the empty list; indexing "" or an empty list, or None, raises.
   */
  function EmptyArray(arrayKey: bool, value: FormValue): (r: Result<FormValue, ConfigError>)
    ensures !arrayKey ==> r == Ok(value)
    ensures r.Ok? && r.value != value ==> r.value == Many([])
  {
    if !arrayKey then Ok(value)
    else match value
      case Null => Err(TypeError)
      // one character is never an empty value
      case Text(s) => if s == "" then Err(IndexError) else Ok(value)
      case Many(items) =>
        if |items| == 0 then Err(IndexError)
        else if items[0] in EMPTY_TEXTS then Ok(Many([]))
        else Ok(value)
  }

  /** "true" and "false" are stored as Python writes booleans. */
  function Capitalize(v: FormValue): (r: FormValue)
    ensures v != Text("true") && v != Text("false") ==> r == v
  {
    if v == Text("true") then Text("True") else if v == Text("false") then Text("False") else v
  }

  /** A new password is stored as its MD5 digest; None and the stored digest are kept; a list cannot be encoded. */
  function HashPassword(v: FormValue, storedPassword: Option<string>, md5: Hash): (r: Result<FormValue, ConfigError>)
    ensures r.Ok? && r.value != v ==> v.Text? && r.value == Text(md5(v.s))
  {
    match v
    case Null => Ok(Null)
    case Text(s) => if storedPassword == Some(s) then Ok(v) else Ok(Text(md5(s)))
    case Many(_) => Err(AttributeError)
  }

  /** The reconfiguration `save_settings` performs once every item is stored. */
  datatype Effects = Effects(
    configureDebug: bool,
    configureCaptcha: bool,
    updateSchedule: bool,
    configureProxy: bool,
    exclusionUpdated: bool,
    seriesExclusionUpdated: bool,
    moviesExclusionUpdated: bool)

  const NO_EFFECTS := Effects(false, false, false, false, false, false, false)

  const CAPTCHA_KEYS: set<string> := {"settings-general-anti_captcha_provider", "settings-anticaptcha-anti_captcha_key",
    "settings-deathbycaptcha-username", "settings-deathbycaptcha-password"}
  const SCHEDULE_KEYS: set<string> := {"update_schedule", "settings-general-auto_update", "settings-general-upgrade_subs",
    "settings-general-wanted_search_frequency", "settings-general-wanted_search_frequency_movie",
    "settings-general-upgrade_frequency"}
  const PROXY_KEYS: set<string> := {"settings-proxy-type", "settings-proxy-url", "settings-proxy-port",
    "settings-proxy-username", "settings-proxy-password"}
  const SERIES_EXCLUSION_KEYS: set<string> := {"settings-series-excluded_tags", "settings-series-only_monitored",
    "settings-series-excluded_series_types"}
  const MOVIES_EXCLUSION_KEYS: set<string> := {"settings-movies-excluded_tags", "settings-movies-only_monitored"}
  /** The exclusion keys as the source lists them: the movies' excluded tags are spelled with dots. */
  const EXCLUSION_KEYS_AS_WRITTEN: set<string> := SERIES_EXCLUSION_KEYS +
    {"settings.movies.excluded_tags", "settings-movies-only_monitored"}
  /** The exclusion keys as intended: every series or movies exclusion key. */
  const EXCLUSION_KEYS: set<string> := SERIES_EXCLUSION_KEYS + MOVIES_EXCLUSION_KEYS

  /** The key lists of `save_settings`, one per flag it raises. */
  datatype FlagKeys = FlagKeys(
    debug: set<string>,
    captcha: set<string>,
    schedule: set<string>,
    proxy: set<string>,
    exclusion: set<string>,
    seriesExclusion: set<string>,
    moviesExclusion: set<string>)

  /** The key lists with the intended exclusion keys. */
  const FLAG_KEYS := FlagKeys({"settings-general-debug"}, CAPTCHA_KEYS, SCHEDULE_KEYS, PROXY_KEYS, EXCLUSION_KEYS,
    SERIES_EXCLUSION_KEYS, MOVIES_EXCLUSION_KEYS)
  /** The key lists as the source has them. */
  const FLAG_KEYS_AS_WRITTEN := FLAG_KEYS.(exclusion := EXCLUSION_KEYS_AS_WRITTEN)

  /** The flags one submitted key raises: each flag stays raised once a key of its list is seen. */
  function RaiseFlags(e: Effects, key: string, keys: FlagKeys): Effects {
    Effects(
      e.configureDebug || key in keys.debug,
      e.configureCaptcha || key in keys.captcha,
      e.updateSchedule || key in keys.schedule,
      e.configureProxy || key in keys.proxy,
      e.exclusionUpdated || key in keys.exclusion,
      e.seriesExclusionUpdated || key in keys.seriesExclusion,
      e.moviesExclusionUpdated || key in keys.moviesExclusion)
  }

  /** The events sent at the end: the badges, then the wanted lists to reset, all behind `exclusion_updated`. */
  function Events(e: Effects): (r: seq<string>)
    ensures "reset-movie-wanted" in r <==> e.exclusionUpdated && e.moviesExclusionUpdated
    ensures "reset-episode-wanted" in r <==> e.exclusionUpdated && e.seriesExclusionUpdated
  {
    if !e.exclusionUpdated then []
    else
      ["badges"] + (if e.seriesExclusionUpdated then ["reset-episode-wanted"] else []) +
      (if e.moviesExclusionUpdated then ["reset-movie-wanted"] else [])
  }

  /** As written, submitting only the movies' excluded tags sends no event, so the wanted movies are not reset. */
  lemma MovieTagsResetMissedAsWritten()
    ensures Events(RaiseFlags(NO_EFFECTS, "settings-movies-excluded_tags", FLAG_KEYS_AS_WRITTEN)) == []
  {
    assert "settings-movies-excluded_tags" != "settings.movies.excluded_tags" by {
      assert "settings-movies-excluded_tags"[8] != "settings.movies.excluded_tags"[8];
    }
    assert "settings-movies-excluded_tags" !in SERIES_EXCLUSION_KEYS;
  }

  /** With the intended key list, every series or movies exclusion key resets its wanted list. */
  lemma ExclusionKeysResetWanted(e: Effects, key: string)
    ensures key in MOVIES_EXCLUSION_KEYS ==> "reset-movie-wanted" in Events(RaiseFlags(e, key, FLAG_KEYS))
    ensures key in SERIES_EXCLUSION_KEYS ==> "reset-episode-wanted" in Events(RaiseFlags(e, key, FLAG_KEYS))
  {
  }

  /** The username keys whose submission drops a provider's cached session, with its section and cache key. */
  function SessionKeyFor(key: string): (r: Option<(string, string)>)
    ensures key == "settings-addic7ed-username" ==> r == Some(("addic7ed", "addic7ed_data"))
  {
    if key == "settings-addic7ed-username" then Some(("addic7ed", "addic7ed_data"))
    else if key == "settings-legendasdivx-username" then Some(("legendasdivx", "legendasdivx_cookies2"))
    else if key == "settings-opensubtitles-username" then Some(("opensubtitles", "os_token"))
    else if key == "settings-opensubtitlescom-username" then Some(("opensubtitlescom", "oscom_token"))
    else if key == "settings-subscene-username" then Some(("subscene", "subscene_cookies2"))
    else if key == "settings-titlovi-username" then Some(("titlovi", "titlovi_token"))
    else None
  }

  /**
    The cache key a submitted key drops. The guard compares the KEY with the stored
    username, so the key is dropped unless the username is literally the key's name.
   */
  function DroppedCacheKey(key: string, values: map<(string, string), string>): (r: Option<string>)
    ensures r.Some? <==> (SessionKeyFor(key).Some? &&
      Lookup(values, SessionKeyFor(key).value.0, "username") != Some(key))
  {
    match SessionKeyFor(key)
    case None => None
    case Some((section, cacheKey)) =>
      if Lookup(values, section, "username") != Some(key) then Some(cacheKey) else None
  }

  /** `settings.<section>.<option>`, None when the option is missing. */
  function Lookup(values: map<(string, string), string>, section: string, option: string): Option<string> {
    if (section, option) in values then Some(values[(section, option)]) else None
  }

  /** Submitting the Addic7ed username always drops the stored Addic7ed session, unless the username is the key itself. */
  lemma Addic7edUsernameDropsSession(values: map<(string, string), string>)
    requires Lookup(values, "addic7ed", "username") != Some("settings-addic7ed-username")
    ensures DroppedCacheKey("settings-addic7ed-username", values) == Some("addic7ed_data")
  {
  }

  /** `settings[parts[1]][parts[2]] = str(value)` for a `settings-...` key; option names are lower-cased. */
  function StoreSetting(values: map<(string, string), string>, sections: set<string>, parts: seq<string>,
                        value: FormValue): (r: Result<map<(string, string), string>, ConfigError>)
    requires |parts| >= 1 && parts[0] == "settings"
    ensures r.Ok? ==> (|parts| >= 3 && parts[1] in sections &&
      r.value == values[(parts[1], Lower(parts[2])) := Repr(value)])
    ensures r.Err? ==> |parts| < 3 || parts[1] !in sections
  {
    if |parts| < 2 then Err(IndexError)
    else if parts[1] !in sections then Err(KeyError)
    else if |parts| < 3 then Err(IndexError)
    else Ok(values[(parts[1], Lower(parts[2])) := Repr(value)])
  }

  /** The position of the first occurrence of `x`. */
  function FirstIndex(mods: seq<FormValue>, x: FormValue): (i: nat)
    requires x in mods
    ensures i < |mods| && mods[i] == x && x !in mods[..i]
  {
    if mods[0] == x then 0
    else
      var j := FirstIndex(mods[1..], x);
      assert mods[..j + 1] == [mods[0]] + mods[1..][..j];
      j + 1
  }

  /** `list.remove(x)`: the first occurrence goes, the rest keep their order. */
  function RemoveFirst(mods: seq<FormValue>, x: FormValue): (r: seq<FormValue>)
    requires x in mods
    ensures |r| == |mods| - 1
    ensures multiset(r) == multiset(mods) - multiset{x}
    ensures var i := FirstIndex(mods, x); r[..i] == mods[..i] && r[i..] == mods[i + 1..]
  {
    var i := FirstIndex(mods, x);
    assert mods == mods[..i] + [x] + mods[i + 1..];
    mods[..i] + mods[i + 1..]
  }

  /** The first mod starting with "color"; a list among the mods before it fails `startswith`. */
  function FirstColor(mods: seq<FormValue>): (r: Result<Option<nat>, ConfigError>)
    ensures r.Ok? && r.value.Some? ==>
      r.value.value < |mods| && mods[r.value.value].Text? && StartsWith(mods[r.value.value].s, "color") &&
      forall j :: 0 <= j < r.value.value ==> !(mods[j].Text? && StartsWith(mods[j].s, "color"))
    ensures r.Ok? && r.value.None? ==> forall j :: 0 <= j < |mods| ==> !(mods[j].Text? && StartsWith(mods[j].s, "color"))
  {
    if |mods| == 0 then Ok(None)
    else if mods[0].Many? then Err(AttributeError)
    else if mods[0].Text? && StartsWith(mods[0].s, "color") then Ok(Some(0))
    else match FirstColor(mods[1..])
      case Err(e) => Err(e)
      case Ok(None) => Ok(None)
      case Ok(Some(i)) => Ok(Some(i + 1))
  }

  /**
    The edit a `subzero-<mod>` key makes to the mods list: a disabled mod that is present
    is removed (its first occurrence), an enabled one is appended even when present; for
    "color", the first color mod is then replaced by the submitted value, if any.
   */
  function EditMods(mods: seq<FormValue>, mod: string, value: FormValue): (r: Result<seq<FormValue>, ConfigError>)
    ensures mod != "color" && value == Text("True") ==> r == Ok(mods + [Text(mod)])
    ensures mod != "color" && value != Text("True") && Text(mod) in mods ==> r == Ok(RemoveFirst(mods, Text(mod)))
    ensures mod != "color" && value != Text("True") && Text(mod) !in mods ==> r == Ok(mods)
  {
    var toggled := Toggled(mods, mod, value == Text("True"));
    if mod != "color" then Ok(toggled)
    else match FirstColor(toggled)
      case Err(e) => Err(e)
      case Ok(previous) =>
        var without := if previous.Some? then toggled[..previous.value] + toggled[previous.value + 1..] else toggled;
        Ok(if !IsEmptyValue(value) then without + [value] else without)
  }

  /** A disabled mod that is present loses its first occurrence; an enabled one is appended. */
  function Toggled(mods: seq<FormValue>, mod: string, enabled: bool): seq<FormValue> {
    if Text(mod) in mods && !enabled then RemoveFirst(mods, Text(mod))
    else if enabled then mods + [Text(mod)]
    else mods
  }

  /**
    The color mod: the first earlier color choice (see `FirstColor`), if any, is removed,
    and the new one is appended last; every other mod keeps its place.
   */
  lemma ColorReplaced(mods: seq<FormValue>, color: string)
    requires StartsWith(color, "color") && Text("color") !in mods
    requires forall j :: 0 <= j < |mods| ==> mods[j].Text?
    ensures FirstColor(mods).Ok? && EditMods(mods, "color", Text(color)).Ok?
    ensures FirstColor(mods).value.None? ==> EditMods(mods, "color", Text(color)).value == mods + [Text(color)]
    ensures FirstColor(mods).value.Some? ==>
      var i := FirstColor(mods).value.value;
      && i < |mods| && StartsWith(mods[i].s, "color")
      && EditMods(mods, "color", Text(color)).value == mods[..i] + mods[i + 1..] + [Text(color)]
  {
    FirstColorTextOnly(mods);
    ColorIsKept(color);
    assert Toggled(mods, "color", false) == mods;
  }

  /**
    An empty color value clears the color choice: the first earlier color mod, if any,
    is removed and nothing is appended; every other mod keeps its place.
   */
  lemma ColorCleared(mods: seq<FormValue>, value: FormValue)
    requires IsEmptyValue(value) && Text("color") !in mods
    requires forall j :: 0 <= j < |mods| ==> mods[j].Text?
    ensures FirstColor(mods).Ok? && EditMods(mods, "color", value).Ok?
    ensures FirstColor(mods).value.None? ==> EditMods(mods, "color", value).value == mods
    ensures FirstColor(mods).value.Some? ==>
      var i := FirstColor(mods).value.value;
      && i < |mods| && StartsWith(mods[i].s, "color")
      && EditMods(mods, "color", value).value == mods[..i] + mods[i + 1..]
  {
    FirstColorTextOnly(mods);
    BooleanTextsNotEmpty();
    assert value != Text("True");
    assert Toggled(mods, "color", false) == mods;
  }

  /** A color choice is neither an empty value nor the "True" of an enabled mod. */
  lemma ColorIsKept(color: string)
    requires StartsWith(color, "color")
    ensures !IsEmptyValue(Text(color)) && Text(color) != Text("True")
  {
    assert color[..5] == "color";
    assert color[0] == 'c';
    assert "None"[0] == 'N' && "null"[0] == 'n' && "undefined"[0] == 'u' && "True"[0] == 'T';
  }

  lemma {:induction false} FirstColorTextOnly(mods: seq<FormValue>)
    requires forall j :: 0 <= j < |mods| ==> mods[j].Text?
    ensures FirstColor(mods).Ok?
  {
    if |mods| > 0 {
      FirstColorTextOnly(mods[1..]);
    }
  }

  /** `','.join(subzero_mods)`: every mod must be a text. */
  function JoinMods(mods: seq<FormValue>): (r: Result<string, ConfigError>)
    ensures r.Ok? <==> forall j :: 0 <= j < |mods| ==> mods[j].Text?
    ensures r.Ok? ==> r.value == Join(seq(|mods|, j requires 0 <= j < |mods| => mods[j].s), ",")
  {
    if forall j :: 0 <= j < |mods| ==> mods[j].Text? then
      Ok(Join(seq(|mods|, j requires 0 <= j < |mods| => mods[j].s), ","))
    else Err(TypeError)
  }

  /** What `save_settings` has built when it stops: stored options, mods, flags and dropped cache keys. */
  datatype SaveState = SaveState(
    values: map<(string, string), string>,
    mods: seq<FormValue>,
    updateSubzero: bool,
    effects: Effects,
    dropped: set<string>)

  /** The flags a key raises and the cache key it drops, both decided before the value is stored. */
  function Prepare(st: SaveState, key: string, keys: FlagKeys): (r: SaveState)
    ensures r.values == st.values && r.mods == st.mods && r.updateSubzero == st.updateSubzero
    ensures r.effects == RaiseFlags(st.effects, key, keys)
    ensures r.dropped == st.dropped + (if DroppedCacheKey(key, st.values).Some? then {DroppedCacheKey(key, st.values).value} else {})
  {
    var dropped := DroppedCacheKey(key, st.values);
    st.(effects := RaiseFlags(st.effects, key, keys),
        dropped := if dropped.Some? then st.dropped + {dropped.value} else st.dropped)
  }

  /** A `settings-` key stores its value; any other key stores nothing. */
  function Store(st: SaveState, parts: seq<string>, v: FormValue, sections: set<string>): (r: Result<SaveState, ConfigError>)
    requires |parts| >= 1
    ensures parts[0] != "settings" ==> r == Ok(st)
    ensures r.Ok? ==> r.value.(values := st.values) == st
  {
    if parts[0] != "settings" then Ok(st)
    else match StoreSetting(st.values, sections, parts, v)
      case Err(e) => Err(e)
      case Ok(values) => Ok(st.(values := values))
  }

  /** A `subzero-` key edits the mods and marks them for saving; any other key leaves them. */
  function EditSubzero(st: SaveState, parts: seq<string>, v: FormValue): (r: Result<SaveState, ConfigError>)
    requires |parts| >= 1
    ensures parts[0] != "subzero" ==> r == Ok(st)
    ensures r.Ok? && parts[0] == "subzero" ==> r.value.updateSubzero && r.value.(mods := st.mods, updateSubzero := st.updateSubzero) == st
  {
    if parts[0] != "subzero" then Ok(st)
    else if |parts| < 2 then Err(IndexError)
    else match EditMods(st.mods, parts[1], v)
      case Err(e) => Err(e)
      case Ok(mods) => Ok(st.(mods := mods, updateSubzero := true))
  }

  /** One pass of the loop over the submitted items; an exception leaves the state as far as it got. */
  function SaveStep(st: SaveState, key: string, value: FormValue, sections: set<string>, md5: Hash, keys: FlagKeys)
    : (r: (SaveState, Option<ConfigError>))
  {
    var parts := Split(key, '-');
    match NormalizeValue(key, value, Lookup(st.values, "auth", "password"), md5)
    case Err(e) => (st, Some(e))
    case Ok(v) =>
      Apply(Prepare(st, key, keys), parts, v, sections)
  }

  /** Storing a normalised value, then editing the mods with it. */
  function Apply(prepared: SaveState, parts: seq<string>, v: FormValue, sections: set<string>)
    : (SaveState, Option<ConfigError>)
    requires |parts| >= 1
  {
    match Store(prepared, parts, v, sections)
    case Err(e) => (prepared, Some(e))
    case Ok(stored) =>
      match EditSubzero(stored, parts, v)
      case Err(e) => (stored, Some(e))
      case Ok(edited) => (edited, None)
  }

  /** The loop over `settings_items`, stopping at the first exception. */
  function SaveItems(st: SaveState, items: seq<(string, FormValue)>, sections: set<string>, md5: Hash, keys: FlagKeys)
    : (SaveState, Option<ConfigError>)
    decreases |items|
  {
    if |items| == 0 then (st, None)
    else
      var r := SaveStep(st, items[0].0, items[0].1, sections, md5, keys);
      if r.1.Some? then r else SaveItems(r.0, items[1..], sections, md5, keys)
  }

  /** The loop over the items from `i` on does item `i`, then the rest unless it raised. */
  lemma SaveItemsFront(st: SaveState, items: seq<(string, FormValue)>, i: nat, sections: set<string>, md5: Hash,
                       keys: FlagKeys)
    requires i < |items|
    ensures var r := SaveStep(st, items[i].0, items[i].1, sections, md5, keys);
      SaveItems(st, items[i..], sections, md5, keys) ==
        if r.1.Some? then r else SaveItems(r.0, items[i + 1..], sections, md5, keys)
  {
    assert items[i..][0] == items[i] && items[i..][1..] == items[i + 1..];
  }

  /** Once an item raises, the later items are never looked at. */
  lemma {:induction false} SaveItemsStops(st: SaveState, items: seq<(string, FormValue)>, k: nat, sections: set<string>,
                                          md5: Hash, keys: FlagKeys)
    requires k <= |items| && SaveItems(st, items[..k], sections, md5, keys).1.Some?
    ensures SaveItems(st, items, sections, md5, keys) == SaveItems(st, items[..k], sections, md5, keys)
    decreases k
  {
    if k > 0 {
      assert items[..k][0] == items[0];
      var r := SaveStep(st, items[0].0, items[0].1, sections, md5, keys);
      if r.1.None? {
        assert items[..k][1..] == items[1..][..k - 1];
        SaveItemsStops(r.0, items[1..], k - 1, sections, md5, keys);
      }
    }
  }

  /** The subzero mods `save_settings` starts from; a lone empty mod counts as none. */
  function InitialMods(values: map<(string, string), string>, literalEval: string -> seq<string>): seq<FormValue>
  {
    var mods := GetArrayFrom(Lookup(values, "general", "subzero_mods"), literalEval);
    if |mods| == 1 && mods[0] == "" then [] else seq(|mods|, i requires 0 <= i < |mods| => Text(mods[i]))
  }

  /** `save_settings` up to the reconfiguration: the stored options, dropped keys and flags, or the exception. */
  function SaveAll(values: map<(string, string), string>, items: seq<(string, FormValue)>, sections: set<string>,
                   md5: Hash, literalEval: string -> seq<string>, keys: FlagKeys): (SaveState, Option<ConfigError>)
  {
    var start := SaveState(values, InitialMods(values, literalEval), false, NO_EFFECTS, {});
    var (done, err) := SaveItems(start, items, sections, md5, keys);
    if err.Some? || !done.updateSubzero then (done, err)
    else match JoinMods(done.mods)
      case Err(e) => (done, Some(e))
      case Ok(joined) => (done.(values := done.values[("general", "subzero_mods") := joined]), None)
  }

  /** The flags play no part in storing a value or editing the mods. */
  lemma ApplyIgnoresEffects(prepared: SaveState, parts: seq<string>, v: FormValue, sections: set<string>, e: Effects)
    requires |parts| >= 1
    ensures var r := Apply(prepared, parts, v, sections);
      Apply(prepared.(effects := e), parts, v, sections) == (r.0.(effects := e), r.1)
      && r.0.effects == prepared.effects
  {
  }

  /**
    Submitting the movies' excluded tags first: with the key lists as written, no event is
    sent; with the intended lists, the wanted movies are reset. The step fails or succeeds
    alike under both.
   */
  lemma MovieTagsStepBothLists(st: SaveState, v: FormValue, sections: set<string>, md5: Hash)
    requires st.effects == NO_EFFECTS
    ensures var asWritten := SaveStep(st, "settings-movies-excluded_tags", v, sections, md5, FLAG_KEYS_AS_WRITTEN);
      var intended := SaveStep(st, "settings-movies-excluded_tags", v, sections, md5, FLAG_KEYS);
      && asWritten.1 == intended.1
      && (asWritten.1.None? ==> Events(asWritten.0.effects) == [] && "reset-movie-wanted" in Events(intended.0.effects))
  {
    var key := "settings-movies-excluded_tags";
    var parts := Split(key, '-');
    var n := NormalizeValue(key, v, Lookup(st.values, "auth", "password"), md5);
    if n.Ok? {
      var prepared := Prepare(st, key, FLAG_KEYS);
      ApplyIgnoresEffects(prepared, parts, n.value, sections, RaiseFlags(NO_EFFECTS, key, FLAG_KEYS_AS_WRITTEN));
      assert Prepare(st, key, FLAG_KEYS_AS_WRITTEN) == prepared.(effects := RaiseFlags(NO_EFFECTS, key, FLAG_KEYS_AS_WRITTEN));
      MovieTagsResetMissedAsWritten();
      ExclusionKeysResetWanted(NO_EFFECTS, key);
    }
  }

  /** A `settings-` item whose value normalises stores it under its section and lower-cased option. */
  lemma SettingStepStores(st: SaveState, section: string, option: string, value: FormValue, sections: set<string>,
                          md5: Hash, keys: FlagKeys)
    requires section in sections && '-' !in section && '-' !in option
    requires NormalizeValue(SettingKey(section, option), value, Lookup(st.values, "auth", "password"), md5).Ok?
    ensures var key := SettingKey(section, option);
      var v := NormalizeValue(key, value, Lookup(st.values, "auth", "password"), md5).value;
      var prepared := Prepare(st, key, keys);
      SaveStep(st, key, value, sections, md5, keys) ==
        (prepared.(values := prepared.values[(section, Lower(option)) := Repr(v)]), None)
  {
    KeyParts(section, option);
  }

  /** A new password is stored as its MD5 digest under `auth.password`, and nothing else is stored. */
  lemma PasswordStepStores(st: SaveState, pw: string, sections: set<string>, md5: Hash, keys: FlagKeys)
    requires "auth" in sections
    requires pw != "true" && pw != "false" && Lookup(st.values, "auth", "password") != Some(pw)
    ensures var r := SaveStep(st, PASSWORD_KEY, Text(pw), sections, md5, keys);
      r.1.None? && r.0.values == st.values[("auth", "password") := md5(pw)]
  {
    PasswordNormalized(pw, Lookup(st.values, "auth", "password"), md5);
    SettingStepStores(st, "auth", "password", Text(pw), sections, md5, keys);
    PasswordLower();
  }

  /** A new password normalises to its digest. */
  lemma PasswordNormalized(pw: string, stored: Option<string>, md5: Hash)
    requires pw != "true" && pw != "false" && stored != Some(pw)
    ensures NormalizeValue(PASSWORD_KEY, Text(pw), stored, md5) == Ok(Text(md5(pw)))
  {
    assert pw !in {"true", "false"};
  }

  lemma PasswordLower()
    ensures Lower("password") == "password"
  {
    var l := Lower("password");
    assert l[0] == 'p' && l[1] == 'a' && l[2] == 's' && l[3] == 's';
    assert l[4] == 'w' && l[5] == 'o' && l[6] == 'r' && l[7] == 'd';
  }

  /** "True" and "False" are not among the empty values. */
  lemma BooleanTextsNotEmpty()
    ensures "True" !in EMPTY_TEXTS && "False" !in EMPTY_TEXTS
  {
    assert "None"[0] == 'N' && "null"[0] == 'n' && "undefined"[0] == 'u';
  }

  /** "true" and "false" are stored capitalised, so `get_settings` reads them back as booleans. */
  lemma SavedBooleanReadBack(section: string, option: string, b: bool, sections: set<string>, md5: Hash,
                             literalEval: string -> seq<string>, st: SaveState, keys: FlagKeys)
    requires section in sections && option == Lower(option)
    requires option !in ARRAY_KEYS && option !in RAW_KEYS && option !in IGNORE_KEYS
    requires '-' !in section && '-' !in option && (section, option) != ("auth", "password")
    ensures var r := SaveStep(st, SettingKey(section, option), Text(if b then "true" else "false"), sections, md5, keys);
      && r.1.None?
      && (section, option) in r.0.values
      && ConvertSetting(option, r.0.values[(section, option)], literalEval) == Some(Bool(b))
  {
    var key := SettingKey(section, option);
    var written := if b then "True" else "False";
    KeyParts("auth", "password");
    assert key != PASSWORD_KEY by {
      KeyParts(section, option);
    }
    var v := NormalizeValue(key, Text(if b then "true" else "false"), Lookup(st.values, "auth", "password"), md5);
    assert v == Ok(Text(written));
    SettingStepStores(st, section, option, Text(if b then "true" else "false"), sections, md5, keys);
    BooleanTextsNotEmpty();
  }

  /** Settings as a mutable object: the options of the configuration file and its section names. */
  class Settings {
    var values: map<(string, string), string>
    const sections: set<string>

    constructor (values: map<(string, string), string>, sections: set<string>)
      ensures this.values == values && this.sections == sections
    {
      this.values := values;
      this.sections := sections;
    }

    /**
      `save_settings(settings_items)`: normalise and store every item, drop the cached
      sessions of providers whose username is submitted, edit the subzero mods in place and
      store them joined. Writing the file and the reconfiguration itself are not modelled;
      the flags that trigger them are returned.
     */
    method SaveSettings<V>(items: seq<(string, FormValue)>, region: Region<V>, md5: Hash,
                           literalEval: string -> seq<string>) returns (r: Result<Effects, ConfigError>)
      modifies this, region
      ensures var (done, err) := SaveAll(old(values), items, sections, md5, literalEval, FLAG_KEYS_AS_WRITTEN);
        && values == done.values
        && region.entries == old(region.entries) - done.dropped
        && (err.Some? ==> r == Err(err.value))
        && (err.None? ==> r == Ok(done.effects))
    {
      var subzeroMods := InitialMods(values, literalEval);
      var updateSubzero, effects, failure;
      ghost var dropped;
      subzeroMods, updateSubzero, effects, dropped, failure := SaveItemsLoop(items, subzeroMods, region, md5, FLAG_KEYS_AS_WRITTEN);
      if failure.Some? {
        return Err(failure.value);
      }
      if updateSubzero {
        var joined := JoinMods(subzeroMods);
        if joined.Err? {
          return Err(joined.error);
        }
        values := values[("general", "subzero_mods") := joined.value];
      }
      return Ok(effects);
    }

    /** The loop of `save_settings` over the submitted items, left at the first exception. */
    method SaveItemsLoop<V>(items: seq<(string, FormValue)>, initialMods: seq<FormValue>, region: Region<V>, md5: Hash,
                            keys: FlagKeys)
      returns (subzeroMods: seq<FormValue>, updateSubzero: bool, effects: Effects, ghost dropped: set<string>,
               failure: Option<ConfigError>)
      modifies this, region
      ensures SaveItems(SaveState(old(values), initialMods, false, NO_EFFECTS, {}), items, sections, md5, keys) ==
        (SaveState(values, subzeroMods, updateSubzero, effects, dropped), failure)
      ensures region.entries == old(region.entries) - dropped
    {
      ghost var start := SaveState(values, initialMods, false, NO_EFFECTS, {});
      subzeroMods, updateSubzero, effects, dropped, failure := initialMods, false, NO_EFFECTS, {}, None;
      var i := 0;
      assert items[i..] == items;
      while i < |items| && failure.None?
        invariant 0 <= i <= |items|
        invariant failure.None? ==> (SaveItems(start, items, sections, md5, keys) ==
          SaveItems(SaveState(values, subzeroMods, updateSubzero, effects, dropped), items[i..], sections, md5, keys))
        invariant failure.Some? ==> (SaveItems(start, items, sections, md5, keys) ==
          (SaveState(values, subzeroMods, updateSubzero, effects, dropped), failure))
        invariant region.entries == old(region.entries) - dropped
      {
        SaveItemsFront(SaveState(values, subzeroMods, updateSubzero, effects, dropped), items, i, sections, md5, keys);
        ghost var droppedBefore := dropped;
        ghost var entriesBefore := region.entries;
        subzeroMods, updateSubzero, effects, dropped, failure :=
          SaveItem(items[i].0, items[i].1, subzeroMods, updateSubzero, effects, dropped, region, md5, keys);
        assert region.entries == old(region.entries) - dropped by {
          assert region.entries == entriesBefore - (dropped - droppedBefore);
        }
        i := i + 1;
      }
      if failure.None? {
        assert items[i..] == [];
      }
    }

    /** One pass of the loop of `save_settings`: the locals it updates come in and go out. */
    method SaveItem<V>(key: string, value: FormValue, subzeroMods: seq<FormValue>, updateSubzero: bool,
                       effects: Effects, ghost dropped: set<string>, region: Region<V>, md5: Hash, keys: FlagKeys)
      returns (mods: seq<FormValue>, update: bool, raised: Effects, ghost nowDropped: set<string>,
               failure: Option<ConfigError>)
      requires forall k :: k in dropped ==> k !in region.entries
      modifies this, region
      ensures SaveStep(SaveState(old(values), subzeroMods, updateSubzero, effects, dropped), key, value, sections, md5, keys) ==
        (SaveState(values, mods, update, raised, nowDropped), failure)
      ensures dropped <= nowDropped && region.entries == old(region.entries) - (nowDropped - dropped)
    {
      mods, update, raised, nowDropped, failure := subzeroMods, updateSubzero, effects, dropped, None;
      ghost var before := SaveState(values, subzeroMods, updateSubzero, effects, dropped);
      var parts := Split(key, '-');
      var normalized := NormalizeValue(key, value, Lookup(values, "auth", "password"), md5);
      if normalized.Err? {
        failure := Some(normalized.error);
        return;
      }
      var v := normalized.value;
      var drop := DroppedCacheKey(key, values);
      raised := RaiseFlags(effects, key, keys);
      nowDropped := DropCacheKey(drop, region, dropped);
      assert SaveState(values, mods, update, raised, nowDropped) == Prepare(before, key, keys);
      mods, update, failure := ApplyItem(parts, v, mods, update, raised, nowDropped);
    }

    /** `region.delete(...)` of a provider's stored session, when the form changes its credentials. */
    static method DropCacheKey<V>(drop: Option<string>, region: Region<V>, ghost dropped: set<string>)
      returns (ghost nowDropped: set<string>)
      requires forall k :: k in dropped ==> k !in region.entries
      modifies region
      ensures nowDropped == if drop.Some? then dropped + {drop.value} else dropped
      ensures region.entries == old(region.entries) - (nowDropped - dropped)
    {
      nowDropped := dropped;
      if drop.Some? {
        region.Delete(drop.value);
        nowDropped := dropped + {drop.value};
        if drop.value in dropped {
          assert old(region.entries) - {drop.value} == old(region.entries);
        } else {
          assert nowDropped - dropped == {drop.value};
        }
      }
    }

    /** The part of one pass that stores the value and edits the mods. */
    method ApplyItem(parts: seq<string>, v: FormValue, subzeroMods: seq<FormValue>, updateSubzero: bool,
                     effects: Effects, ghost dropped: set<string>)
      returns (mods: seq<FormValue>, update: bool, failure: Option<ConfigError>)
      requires |parts| >= 1
      modifies this
      ensures Apply(SaveState(old(values), subzeroMods, updateSubzero, effects, dropped), parts, v, sections) ==
        (SaveState(values, mods, update, effects, dropped), failure)
    {
      mods, update, failure := subzeroMods, updateSubzero, None;
      if parts[0] == "settings" {
        var stored := StoreSetting(values, sections, parts, v);
        if stored.Err? {
          failure := Some(stored.error);
          return;
        }
        values := stored.value;
      }
      if parts[0] == "subzero" {
        if |parts| < 2 {
          failure := Some(IndexError);
          return;
        }
        var edited := EditMods(mods, parts[1], v);
        if edited.Err? {
          failure := Some(edited.error);
          return;
        }
        mods := edited.value;
        update := true;
      }
    }
  }

  // ---------------------------------------------------------------- configure_proxy_func

  /**
    The proxy address `configure_proxy_func` exports: `type://[user:password@]url:port`,
    the credentials only when both are set, each passed through `quote_plus`; a proxy type
    of "None" exports nothing.
   */
  function ProxyUrl(proxyType: string, url: string, port: string, username: string, password: string,
                    quotePlus: string -> string): (r: Option<string>)
    ensures r.None? <==> proxyType == "None"
    ensures r.Some? && (username == "" || password == "") ==> r.value == proxyType + "://" + url + ":" + port
    ensures r.Some? && username != "" && password != "" ==>
      r.value == proxyType + "://" + quotePlus(username) + ":" + quotePlus(password) + "@" + url + ":" + port
  {
    if proxyType == "None" then None
    else if username != "" && password != "" then
      Some(proxyType + "://" + quotePlus(username) + ":" + quotePlus(password) + "@" + url + ":" + port)
    else Some(proxyType + "://" + url + ":" + port)
  }

  /** Since `quote_plus` escapes "@", the address holds an "@" exactly when credentials were given. */
  lemma ProxyCredentialsIffAt(proxyType: string, url: string, port: string, username: string, password: string,
                              quotePlus: string -> string)
    requires proxyType != "None"
    requires '@' !in proxyType && '@' !in url && '@' !in port
    requires forall s :: '@' !in quotePlus(s)
    ensures '@' in ProxyUrl(proxyType, url, port, username, password, quotePlus).value <==>
      username != "" && password != ""
  {
    var r := ProxyUrl(proxyType, url, port, username, password, quotePlus).value;
    if username != "" && password != "" {
      var prefix := proxyType + "://" + quotePlus(username) + ":" + quotePlus(password);
      assert r == prefix + "@" + url + ":" + port;
      assert r[|prefix|] == '@';
    } else {
      assert r == proxyType + "://" + url + ":" + port;
      assert forall i :: 0 <= i < |r| ==> r[i] != '@' by {
        forall i | 0 <= i < |r| ensures r[i] != '@' {
          if i < |proxyType| {
            assert r[i] == proxyType[i];
          } else if i < |proxyType| + 3 {
          } else if i < |proxyType| + 3 + |url| {
            assert r[i] == url[i - |proxyType| - 3];
          } else if i == |proxyType| + 3 + |url| {
          } else {
            assert r[i] == port[i - |proxyType| - 4 - |url|];
          }
        }
      }
    }
  }

  /**
    `NO_PROXY`: the excluded hosts joined with ",". A plain comma-separated setting comes
    out as it was written; a list literal is joined.
   */
  function NoProxy(exclude: Option<string>, literalEval: string -> seq<string>): (r: string)
    ensures exclude.None? || exclude.value == "" ==> r == ""
    ensures exclude.Some? && '[' !in exclude.value ==> r == exclude.value
    ensures exclude.Some? && exclude.value != "" && '[' in exclude.value ==> r == Join(literalEval(exclude.value), ",")
  {
    Join(GetArrayFrom(exclude, literalEval), ",")
  }
}
