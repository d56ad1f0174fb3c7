/**
 * The CKAN harvester's source configuration: `validate_config`, which the
 * source form runs on the configuration text, and `_set_config`, which
 * loads it into the harvester before every gather and import.
 *
 * `json.loads` is the parameter `parse` (None where it raises ValueError);
 * the `group_show` and `user_show` look-ups are the parameters
 * `groupExists` and `userExists` (false where they raise NotFound).
 */
module CkanConfig {
  import opened Text
  import opened PyJson

  /** The ValueError messages of `validate_config`. */
  datatype Problem =
    | NotJson                 // `json.loads` failed
    | ApiVersionNotInteger    // 'api_version must be an integer'
    | TagsNotList             // 'default_tags must be a list'
    | GroupsNotList           // 'default_groups must be a list'
    | GroupNotFound           // 'Default group not found'
    | ExtrasNotDict           // 'default_extras must be a dictionary'
    | UserNotFound            // 'User not found'
    | FlagNotBool(key: string) // '<key> must be boolean'

  /**
   * What `validate_config` does: returns the configuration, raises
   * ValueError with a problem, or lets another exception escape.
   */
  datatype Verdict = Accepted(config: Option<string>) | Rejected(problem: Problem) | Raised(error: PyError)

  /** The outcome of one of the checks inside the `try` block. */
  datatype Check = Pass | Fail(problem: Problem) | Crash(error: PyError)

  /** `value[key] if key in value else None`, with the exceptions of `in` and of indexing. */
  function Lookup(j: Json, key: string): (r: Outcome<Option<Json>>)
    ensures j.JObject? ==> r == Ok(if key in j.fields then Some(j.fields[key]) else None)
    ensures (j.JArray? || j.JString?) && r == Ok(None) ==> HasKey(j, key) == Ok(false)
  {
    match HasKey(j, key)
    case Raise(e) => Raise(e)
    case Ok(present) =>
      if !present then Ok(None)
      else if Index(j, key).Ok? then Ok(Some(Index(j, key).value))
      else Raise(Index(j, key).error)
  }

  /** The checks run one after the other: the first that does not pass decides. */
  function Then(a: Check, b: Check): Check {
    if a.Pass? then b else a
  }

  function CheckApiVersion(obj: Json): Check {
    match Lookup(obj, "api_version")
    case Raise(e) => Crash(e)
    case Ok(None) => Pass
    case Ok(Some(v)) =>
      if PyInt(v).Ok? then Pass
      else if PyInt(v).error == ValueError then Fail(ApiVersionNotInteger)
      else Crash(PyInt(v).error)
  }

  /** `if key in obj: if not isinstance(obj[key], <type>): raise ValueError(...)`. */
  function CheckType(obj: Json, key: string, isType: Json -> bool, problem: Problem): Check {
    match Lookup(obj, key)
    case Raise(e) => Crash(e)
    case Ok(None) => Pass
    case Ok(Some(v)) => if isType(v) then Pass else Fail(problem)
  }

  function CheckGroups(obj: Json, groupExists: Json -> bool): Check {
    match Lookup(obj, "default_groups")
    case Raise(e) => Crash(e)
    case Ok(None) => Pass
    case Ok(Some(v)) =>
      if !v.JArray? then Fail(GroupsNotList)
      else if exists i :: 0 <= i < |v.items| && !groupExists(v.items[i]) then Fail(GroupNotFound)
      else Pass
  }

  /** The user is read with `obj.get('user')`, which only a dict has. */
  function CheckUser(obj: Json, userExists: Json -> bool): Check {
    match HasKey(obj, "user")
    case Raise(e) => Crash(e)
    case Ok(present) =>
      if !present then Pass
      else if Get(obj, "user", JNull).Raise? then Crash(Get(obj, "user", JNull).error)
      else if userExists(Get(obj, "user", JNull).value) then Pass
      else Fail(UserNotFound)
  }

  function CheckObject(obj: Json, groupExists: Json -> bool, userExists: Json -> bool): Check {
    Then(CheckApiVersion(obj),
    Then(CheckType(obj, "default_tags", (v: Json) => v.JArray?, TagsNotList),
    Then(CheckGroups(obj, groupExists),
    Then(CheckType(obj, "default_extras", (v: Json) => v.JObject?, ExtrasNotDict),
    Then(CheckUser(obj, userExists),
    Then(CheckType(obj, "read_only", (v: Json) => v.JBool?, FlagNotBool("read_only")),
         CheckType(obj, "force_all", (v: Json) => v.JBool?, FlagNotBool("force_all"))))))))
  }

  /** `validate_config(config)`. */
  function ValidateConfig(config: Option<string>, parse: string -> Option<Json>,
                          groupExists: Json -> bool, userExists: Json -> bool): (r: Verdict)
    ensures r.Accepted? ==> r.config == config
    ensures !Truthy(config) ==> r.Accepted?
    ensures r == Rejected(NotJson) <==> Truthy(config) && parse(config.value).None?
  {
    if !Truthy(config) then Accepted(config)
    else if parse(config.value).None? then Rejected(NotJson)
    else
      var c := CheckObject(parse(config.value).value, groupExists, userExists);
      if c.Pass? then Accepted(config)
      else if c.Fail? then Rejected(c.problem)
      else Raised(c.error)
  }

  /** A configuration object every check accepts: the types the harvester relies on, and groups and user that exist. */
  predicate WellFormed(fields: map<string, Json>, groupExists: Json -> bool, userExists: Json -> bool) {
    && ("api_version" in fields ==> PyInt(fields["api_version"]).Ok?)
    && ("default_tags" in fields ==> fields["default_tags"].JArray?)
    && ("default_groups" in fields ==>
          (fields["default_groups"].JArray? &&
           forall i :: 0 <= i < |fields["default_groups"].items| ==> groupExists(fields["default_groups"].items[i])))
    && ("default_extras" in fields ==> fields["default_extras"].JObject?)
    && ("user" in fields ==> userExists(fields["user"]))
    && ("read_only" in fields ==> fields["read_only"].JBool?)
    && ("force_all" in fields ==> fields["force_all"].JBool?)
  }

  /**
   * For a configuration that decodes to a dict: it is accepted exactly when
   * it is well formed, every ValueError names a real defect, and the only
   * other exception is `int()` failing on `api_version` with TypeError or
   * OverflowError.
   */
  lemma ValidateObjectSpec(config: Option<string>, parse: string -> Option<Json>,
                           groupExists: Json -> bool, userExists: Json -> bool, fields: map<string, Json>)
    requires Truthy(config) && parse(config.value) == Some(JObject(fields))
    ensures ValidateConfig(config, parse, groupExists, userExists) == Accepted(config) <==>
      WellFormed(fields, groupExists, userExists)
    ensures ValidateConfig(config, parse, groupExists, userExists) == Rejected(ApiVersionNotInteger) ==>
      "api_version" in fields && PyInt(fields["api_version"]) == Raise(ValueError)
    ensures ValidateConfig(config, parse, groupExists, userExists) == Rejected(TagsNotList) ==>
      "default_tags" in fields && !fields["default_tags"].JArray?
    ensures ValidateConfig(config, parse, groupExists, userExists) == Rejected(ExtrasNotDict) ==>
      "default_extras" in fields && !fields["default_extras"].JObject?
    ensures ValidateConfig(config, parse, groupExists, userExists) == Rejected(UserNotFound) ==>
      "user" in fields && !userExists(fields["user"])
    ensures ValidateConfig(config, parse, groupExists, userExists).Raised? ==>
      "api_version" in fields && PyInt(fields["api_version"]).Raise? &&
      PyInt(fields["api_version"]).error != ValueError
  {
  }

  /** A JSON number, boolean or null is not iterable: the first `in` test raises TypeError. */
  lemma ValidateScalarRaises(config: Option<string>, parse: string -> Option<Json>,
                             groupExists: Json -> bool, userExists: Json -> bool)
    requires Truthy(config) && parse(config.value).Some?
    requires var j := parse(config.value).value; j.JNull? || j.JBool? || j.JInt? || j.JFloat?
    ensures ValidateConfig(config, parse, groupExists, userExists) == Raised(TypeError)
  {
  }

  /** A JSON list that holds none of the option names passes every check, although it is no dict. */
  lemma ValidateAcceptsPlainList(config: Option<string>, parse: string -> Option<Json>,
                                 groupExists: Json -> bool, userExists: Json -> bool, items: seq<Json>)
    requires Truthy(config) && parse(config.value) == Some(JArray(items))
    requires forall i :: 0 <= i < |items| ==> !items[i].JString?
    ensures ValidateConfig(config, parse, groupExists, userExists) == Accepted(config)
  {
    var j := JArray(items);
    assert forall key: string :: JString(key) !in items;
    assert HasKey(j, "user") == Ok(false);
  }

  // ---------------------------------------------------------------------------
  // _set_config

  /** The harvester fields `_set_config` writes. */
  datatype Settings = Settings(config: Json, apiVersion: int)

  datatype Loaded = Loaded(settings: Settings, raised: Option<PyError>)

  /** `_set_config(config_str)` from the settings `s`: the new settings and the exception it raised, if any. */
  function LoadConfig(s: Settings, configStr: Option<string>, parse: string -> Option<Json>): Loaded {
    if !Truthy(configStr) then Loaded(Settings(JObject(map[]), s.apiVersion), None)
    else if parse(configStr.value).None? then Loaded(s, Some(ValueError))
    else
      var c := parse(configStr.value).value;
      var v := Lookup(c, "api_version");
      if v.Raise? then Loaded(Settings(c, s.apiVersion), Some(v.error))
      else if v.value.None? then Loaded(Settings(c, s.apiVersion), None)
      else if PyInt(v.value.value).Raise? then Loaded(Settings(c, s.apiVersion), Some(PyInt(v.value.value).error))
      else Loaded(Settings(c, PyInt(v.value.value).value), None)
  }

  /**
   * What `_set_config` leaves behind: an empty or missing configuration
   * becomes `{}`; a decoded one is stored even when reading `api_version`
   * then raises; `api_version` changes only when it is read successfully.
   */
  lemma LoadConfigSpec(s: Settings, configStr: Option<string>, parse: string -> Option<Json>)
    ensures var r := LoadConfig(s, configStr, parse);
      && (!Truthy(configStr) ==> r.settings.config == JObject(map[]) && r.raised.None?)
      && (Truthy(configStr) && parse(configStr.value).None? ==> r == Loaded(s, Some(ValueError)))
      && (Truthy(configStr) && parse(configStr.value).Some? ==> r.settings.config == parse(configStr.value).value)
      && (r.raised.Some? ==> r.settings.apiVersion == s.apiVersion)
      && (r.settings.apiVersion != s.apiVersion ==>
            Truthy(configStr) && parse(configStr.value).Some? && parse(configStr.value).value.JObject? &&
            "api_version" in parse(configStr.value).value.fields &&
            PyInt(parse(configStr.value).value.fields["api_version"]) == Ok(r.settings.apiVersion))
  {
  }

  /**
   * A configuration `validate_config` accepts loads without an exception, and
   * a dict's `api_version`, when present, becomes the harvester's API version.
   */
  lemma AcceptedConfigLoads(s: Settings, config: Option<string>, parse: string -> Option<Json>,
                            groupExists: Json -> bool, userExists: Json -> bool)
    requires ValidateConfig(config, parse, groupExists, userExists).Accepted?
    ensures LoadConfig(s, config, parse).raised.None?
    ensures (Truthy(config) && parse(config.value).Some? && parse(config.value).value.JObject? &&
             "api_version" in parse(config.value).value.fields) ==>
      Ok(LoadConfig(s, config, parse).settings.apiVersion) == PyInt(parse(config.value).value.fields["api_version"])
  {
  }

  /** The CKAN harvester's state: the loaded configuration (None until loaded) and the API version (2 by default). */
  class Harvester {
    var config: Json
    var apiVersion: int

    constructor ()
      ensures config == JNull && apiVersion == 2
    {
      config := JNull;
      apiVersion := 2;
    }

    function Current(): Settings
      reads this
    {
      Settings(config, apiVersion)
    }

    /** `_set_config(config_str)`. */
    method SetConfig(configStr: Option<string>, parse: string -> Option<Json>) returns (raised: Option<PyError>)
      modifies this
      ensures Loaded(Current(), raised) == LoadConfig(old(Current()), configStr, parse)
    {
      raised := None;
      if Truthy(configStr) {
        var decoded := parse(configStr.value);
        if decoded.None? {
          return Some(ValueError);
        }
        config := decoded.value;
        var present := HasKey(config, "api_version");
        if present.Raise? {
          return Some(present.error);
        }
        if present.value {
          var v := Index(config, "api_version");
          if v.Raise? {
            return Some(v.error);
          }
          var n := PyInt(v.value);
          if n.Raise? {
            return Some(n.error);
          }
          apiVersion := n.value;
        }
      } else {
        config := JObject(map[]);
      }
    }
  }
}
