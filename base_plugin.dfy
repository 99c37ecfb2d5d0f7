/**
 * `Plugins\BasePlugin`, the base class of a plugin built on this
 * framework: the per-class singleton registry, the fixed order of `init`,
 * the filter-name prefix derived from the class name, the plugin's
 * directory URL, the managers created from the manager classes and the
 * registration of the `run` action.
 */
module BasePlugin {
  import opened Wrappers
  import opened PhpValues
  import opened Host
  import Text
  import PluginManager

  // ---------------------------------------------------------------------
  // The filter-name prefix
  // ---------------------------------------------------------------------

  /** `strrpos($s, $c)` for a one-character needle. */
  function LastIndexOf(s: string, c: char): (r: Option<nat>)
    ensures r.Some? ==> r.value < |s| && s[r.value] == c && c !in s[r.value + 1..]
    ensures r.None? ==> c !in s
  {
    if s == [] then None
    else if s[|s| - 1] == c then Some(|s| - 1)
    else
      var r := LastIndexOf(s[..|s| - 1], c);
      assert s == s[..|s| - 1] + [s[|s| - 1]];
      r
  }

  /**
   * The namespace: `substr($name, 0, strrpos($name, '\\'))`; without a
   * backslash `strrpos` gives false, read as length 0, so the namespace is empty.
   */
  function Namespace(fqcn: string): string {
    match LastIndexOf(fqcn, '\\')
    case Some(i) => fqcn[..i]
    case None => ""
  }

  /** `ReflectionClass::getShortName()`: the text after the last backslash. */
  function ShortName(fqcn: string): string {
    match LastIndexOf(fqcn, '\\')
    case Some(i) => fqcn[i + 1..]
    case None => fqcn
  }

  /** `get_plugin_filters_portion_name()` for the class named `fqcn`. */
  function FiltersPortionName(fqcn: string): string {
    Text.AsciiLower(Text.ReplaceAll(Namespace(fqcn), "\\", "/")) + "/" + Text.AsciiLower(ShortName(fqcn))
  }

  lemma AsciiLowerKeepsBackslashOut(s: string)
    requires '\\' !in s
    ensures '\\' !in Text.AsciiLower(s)
  {
    var r := Text.AsciiLower(s);
    forall i | 0 <= i < |r| ensures r[i] != '\\' {
      assert r[i] == Text.LowerChar(s[i]);
      assert s[i] != '\\';
    }
  }

  /** The prefix holds no backslash: each one of the namespace becomes `/`. */
  lemma FiltersPortionNameHasNoBackslash(fqcn: string)
    ensures '\\' !in FiltersPortionName(fqcn)
  {
    var ns := Text.ReplaceAll(Namespace(fqcn), "\\", "/");
    Text.ReplaceCharRemovesIt(Namespace(fqcn), '\\', "/");
    AsciiLowerKeepsBackslashOut(ns);
    AsciiLowerKeepsBackslashOut(ShortName(fqcn));
  }

  /**
   * The namespace and the short name split the class name at its last
   * backslash, and a class without a namespace gives `/` and its
   * lower-cased name.
   */
  lemma FiltersPortionNameParts(fqcn: string)
    ensures '\\' in fqcn ==> fqcn == Namespace(fqcn) + "\\" + ShortName(fqcn) && '\\' !in ShortName(fqcn)
    ensures '\\' !in fqcn ==> FiltersPortionName(fqcn) == "/" + Text.AsciiLower(fqcn)
  {
    if '\\' in fqcn {
      SplitAtLastBackslash(fqcn);
    } else {
      PortionNameWithoutNamespace(fqcn);
    }
  }

  lemma SplitAtLastBackslash(fqcn: string)
    requires '\\' in fqcn
    ensures fqcn == Namespace(fqcn) + "\\" + ShortName(fqcn) && '\\' !in ShortName(fqcn)
  {
    var i := LastIndexOf(fqcn, '\\').value;
    assert fqcn == fqcn[..i] + [fqcn[i]] + fqcn[i + 1..];
  }

  lemma PortionNameWithoutNamespace(fqcn: string)
    requires '\\' !in fqcn
    ensures FiltersPortionName(fqcn) == "/" + Text.AsciiLower(fqcn)
  {
    assert Namespace(fqcn) == "" && ShortName(fqcn) == fqcn;
    assert Text.AsciiLower(Text.ReplaceAll("", "\\", "/")) == "";
  }

  /** The four filters `apply_filters` runs, in order. */
  function FilterNames(prefix: string): (r: seq<string>)
    ensures |r| == 4
    ensures forall i :: 0 <= i < 4 ==> Text.StartsWith(r[i], prefix + "/")
  {
    [prefix + "/args", prefix + "/config", prefix + "/strings", prefix + "/run_action"]
  }

  // ---------------------------------------------------------------------
  // The directory URL
  // ---------------------------------------------------------------------

  /** WordPress's `WP_PLUGIN_DIR`, `get_theme_root()` and `get_theme_root_uri()`. */
  datatype Roots = Roots(pluginDir: string, themeRoot: string, themeRootUri: string)

  /**
   * `get_plugin_dir_url()` for the directory `dirPath`; `pluginsUrl` is
   * WordPress's `plugins_url`.
   */
  function PluginDirUrl(dirPath: string, roots: Roots, pluginsUrl: string -> string): string {
    if Text.StartsWith(dirPath, roots.pluginDir) then pluginsUrl(Text.ReplaceAll(dirPath, roots.pluginDir, ""))
    else if Text.StartsWith(dirPath, roots.themeRoot) then roots.themeRootUri + Text.ReplaceAll(dirPath, roots.themeRoot, "")
    else ""
  }

  /** `needle` occurs in `s` at position `i`. */
  predicate OccursAt(s: string, needle: string, i: int) {
    0 <= i && i + |needle| <= |s| && s[i..i + |needle|] == needle
  }

  /** `needle` occurs somewhere in `s`. */
  ghost predicate Occurs(s: string, needle: string) {
    exists i :: OccursAt(s, needle, i)
  }

  lemma {:induction false} ReplaceAllAbsent(s: string, needle: string)
    requires needle != [] && !Occurs(s, needle)
    ensures Text.ReplaceAll(s, needle, "") == s
    decreases |s|
  {
    if |s| >= |needle| {
      assert !OccursAt(s, needle, 0);
      assert s[0..|needle|] == s[..|needle|];
      assert !Text.StartsWith(s, needle);
      forall i | 0 <= i && i + |needle| <= |s| - 1
        ensures !OccursAt(s[1..], needle, i)
      {
        assert !OccursAt(s, needle, i + 1);
        assert s[1..][i..i + |needle|] == s[i + 1..i + 1 + |needle|];
      }
      ReplaceAllAbsent(s[1..], needle);
      assert s == [s[0]] + s[1..];
    }
  }

  /**
   * The plugins directory is tried first, then the theme root, and any
   * other directory gets the empty string; when the root occurs only as
   * the prefix, the relative path is exactly what follows it.
   */
  lemma PluginDirUrlCases(dirPath: string, roots: Roots, pluginsUrl: string -> string)
    ensures Text.StartsWith(dirPath, roots.pluginDir) ==>
      PluginDirUrl(dirPath, roots, pluginsUrl) == pluginsUrl(Text.ReplaceAll(dirPath, roots.pluginDir, ""))
    ensures !Text.StartsWith(dirPath, roots.pluginDir) && Text.StartsWith(dirPath, roots.themeRoot) ==>
      PluginDirUrl(dirPath, roots, pluginsUrl) == roots.themeRootUri + Text.ReplaceAll(dirPath, roots.themeRoot, "")
    ensures !Text.StartsWith(dirPath, roots.pluginDir) && !Text.StartsWith(dirPath, roots.themeRoot) ==>
      PluginDirUrl(dirPath, roots, pluginsUrl) == ""
    ensures Text.StartsWith(dirPath, roots.pluginDir) && roots.pluginDir != [] && !Occurs(dirPath[|roots.pluginDir|..], roots.pluginDir) ==>
      PluginDirUrl(dirPath, roots, pluginsUrl) == pluginsUrl(dirPath[|roots.pluginDir|..])
  {
    if Text.StartsWith(dirPath, roots.pluginDir) && roots.pluginDir != [] && !Occurs(dirPath[|roots.pluginDir|..], roots.pluginDir) {
      Text.ReplaceAllAtPrefix(dirPath, roots.pluginDir);
      ReplaceAllAbsent(dirPath[|roots.pluginDir|..], roots.pluginDir);
    }
  }

  /**
   * `str_replace` strips every occurrence of the root, not only the
   * prefix: a plugin under `/p/a/p/` with plugins directory `/p` is given
   * the relative path `/a/`.
   */
  lemma PluginDirUrlStripsEveryOccurrence(pluginsUrl: string -> string)
    ensures PluginDirUrl("/p/a/p/", Roots("/p", "/t", "https://t"), pluginsUrl) == pluginsUrl("/a/")
  {
    var s := "/p/a/p/";
    assert Text.StartsWith(s, "/p");
    assert s[2..] == "/a/p/";
    assert "/a/p/"[..2] == "/a" != "/p";
    assert !Text.StartsWith("/a/p/", "/p");
    assert "/a/p/"[1..] == "a/p/";
    assert "a/p/"[..2] == "a/" != "/p";
    assert !Text.StartsWith("a/p/", "/p");
    assert "a/p/"[1..] == "/p/";
    assert Text.StartsWith("/p/", "/p");
    assert "/p/"[2..] == "/";
    assert Text.ReplaceAll("/", "/p", "") == "/";
    assert Text.ReplaceAll("/p/", "/p", "") == "/";
    assert Text.ReplaceAll("a/p/", "/p", "") == "a/";
    assert Text.ReplaceAll("/a/p/", "/p", "") == "/a/";
    assert Text.ReplaceAll(s, "/p", "") == "/a/";
  }

  // ---------------------------------------------------------------------
  // The run action
  // ---------------------------------------------------------------------

  /** `get_run_action_priority()` and `get_run_action_accepted_args()`. */
  const RunActionPriority := 10
  const RunActionAcceptedArgs := 1

  /** The `add_action` call `add_run_action` makes for `run_action`, if any. */
  function RunActionCalls(runAction: PhpVal): seq<Call> {
    if runAction.PStr? && Truthy(runAction)
    then [AddAction(runAction.s, "run", PInt(RunActionPriority), PInt(RunActionAcceptedArgs))]
    else []
  }

  /**
   * `run` is hooked exactly when `run_action` is a string that PHP does
   * not consider empty (so neither `''` nor `'0'`), on that hook, with
   * priority 10 and one argument.
   */
  lemma RunActionCallsCases(runAction: PhpVal)
    ensures |RunActionCalls(runAction)| <= 1
    ensures RunActionCalls(runAction) != [] <==> runAction.PStr? && runAction.s != "" && runAction.s != "0"
    ensures RunActionCalls(runAction) != [] ==>
      RunActionCalls(runAction)[0] == AddAction(runAction.s, "run", PInt(10), PInt(1))
  {
  }

  // ---------------------------------------------------------------------
  // The managers
  // ---------------------------------------------------------------------

  /** A manager object, built from its class and the plugin's `args`, `config` and `strings`. */
  datatype ManagerInstance = ManagerInstance(cls: PhpVal, args: PhpVal, config: PhpVal, strings: PhpVal)

  /** A property `$this->managers->$name`. */
  datatype Slot = Slot(name: string, manager: ManagerInstance)

  /** The property name an array key becomes. */
  function PropertyName(k: Key): string {
    match k
    case IntKey(i) => Text.IntToDecimal(i)
    case StrKey(s) => s
  }

  function SlotLookup(slots: seq<Slot>, name: string): Option<ManagerInstance> {
    if slots == [] then None
    else if slots[0].name == name then Some(slots[0].manager)
    else SlotLookup(slots[1..], name)
  }

  /** `$obj->$name = $m`: an existing property keeps its place, a new one goes last. */
  function SetSlot(slots: seq<Slot>, name: string, m: ManagerInstance): (r: seq<Slot>)
    ensures SlotLookup(r, name) == Some(m)
    ensures forall n :: n != name ==> SlotLookup(r, n) == SlotLookup(slots, n)
    ensures SlotLookup(slots, name).None? ==> r == slots + [Slot(name, m)]
  {
    if slots == [] then [Slot(name, m)]
    else if slots[0].name == name then [Slot(name, m)] + slots[1..]
    else [slots[0]] + SetSlot(slots[1..], name, m)
  }

  /** The managers `add_managers` leaves, one per manager class, in the order of `classes`. */
  function ManagerSlots(current: seq<Slot>, classes: seq<Pair>, args: PhpVal, config: PhpVal, strings: PhpVal): seq<Slot>
    decreases classes
  {
    if classes == [] then current
    else ManagerSlots(SetSlot(current, PropertyName(classes[0].key), ManagerInstance(classes[0].val, args, config, strings)),
                      classes[1..], args, config, strings)
  }

  /** The class of the last entry of `classes` whose key names `name`. */
  function LastClassFor(classes: seq<Pair>, name: string): Option<PhpVal> {
    if classes == [] then None
    else match LastClassFor(classes[1..], name)
      case Some(c) => Some(c)
      case None => if PropertyName(classes[0].key) == name then Some(classes[0].val) else None
  }

  /**
   * After `add_managers`, each key of the manager classes names a manager
   * built from the last class given for it with the plugin's current
   * `args`, `config` and `strings`; every other property is untouched.
   */
  lemma {:induction false} ManagerSlotsLookup(current: seq<Slot>, classes: seq<Pair>, args: PhpVal, config: PhpVal, strings: PhpVal, name: string)
    ensures SlotLookup(ManagerSlots(current, classes, args, config, strings), name) ==
      match LastClassFor(classes, name)
      case Some(c) => Some(ManagerInstance(c, args, config, strings))
      case None => SlotLookup(current, name)
    decreases classes
  {
    if classes != [] {
      var next := SetSlot(current, PropertyName(classes[0].key), ManagerInstance(classes[0].val, args, config, strings));
      ManagerSlotsLookup(next, classes[1..], args, config, strings, name);
    }
  }

  /** The names of the managers `init_managers` initialises: those whose class has an `init` method, in order. */
  function InitializedManagers(slots: seq<Slot>, withInit: set<string>): seq<string> {
    if slots == [] then []
    else
      (if slots[0].manager.cls.PStr? && slots[0].manager.cls.s in withInit then [slots[0].name] else [])
      + InitializedManagers(slots[1..], withInit)
  }

  lemma {:induction false} InitializedManagersAppend(xs: seq<Slot>, ys: seq<Slot>, withInit: set<string>)
    ensures InitializedManagers(xs + ys, withInit) == InitializedManagers(xs, withInit) + InitializedManagers(ys, withInit)
  {
    if xs == [] {
      assert xs + ys == ys;
    } else {
      var zs := xs + ys;
      assert zs[0] == xs[0] && zs[1..] == xs[1..] + ys;
      InitializedManagersAppend(xs[1..], ys, withInit);
      ConcatAssoc(if xs[0].manager.cls.PStr? && xs[0].manager.cls.s in withInit then [xs[0].name] else [], InitializedManagers(xs[1..], withInit), InitializedManagers(ys, withInit));
    }
  }

  // ---------------------------------------------------------------------
  // The plugin object and the registry
  // ---------------------------------------------------------------------

  /**
   * What a concrete plugin class and WordPress supply: the class name, the
   * plugin's directory (`plugin_dir_path` of the class file), the roots,
   * `plugins_url`, `admin_url('admin-ajax.php')`, the four abstract
   * getters, the manager classes that have an `init` method, and what the
   * hooked filters return for a filter name and value.
   */
  datatype Env = Env(
    cls: string,
    dirPath: string,
    roots: Roots,
    pluginsUrl: string -> string,
    adminAjaxUrl: string,
    defaultConfig: PhpVal,
    defaultStrings: PhpVal,
    defaultRunAction: PhpVal,
    managerClasses: PhpVal,
    withInit: set<string>,
    filter: (string, PhpVal) -> PhpVal)

  /** The `args` array `init_properties` builds. */
  function InitialArgs(env: Env, ajaxUrl: PhpVal): PhpVal {
    PArr([Pair(StrKey("dir_path"), PStr(env.dirPath)),
          Pair(StrKey("dir_url"), PStr(PluginDirUrl(env.dirPath, env.roots, env.pluginsUrl))),
          Pair(StrKey("ajax_url"), ajaxUrl)])
  }

  /**
   * The initial `args` carry the AJAX URL the registry held when the plugin
   * was built: a manager built from them gets no AJAX URL while that is
   * still null, and gets it once it is set.
   */
  lemma InitialArgsAjaxUrl(env: Env, ajaxUrl: PhpVal)
    ensures Lookup(InitialArgs(env, ajaxUrl).entries, StrKey("ajax_url")) == Some(ajaxUrl)
    ensures PluginManager.ArgOrNull(InitialArgs(env, ajaxUrl), "ajax_url") == ajaxUrl
    ensures PluginManager.ArgOrNull(InitialArgs(env, ajaxUrl), "dir_path") == PStr(env.dirPath)
  {
    var es := InitialArgs(env, ajaxUrl).entries;
    assert "dir_path"[0] != "ajax_url"[0] && "dir_url"[0] != "ajax_url"[0];
    assert es[0].key != StrKey("ajax_url") && es[1].key != StrKey("ajax_url") && es[2].key == StrKey("ajax_url");
    assert Position(es, StrKey("dir_path")) == Some(0);
    assert Position(es, StrKey("ajax_url")) == Some(2);
  }

  /** A step of `init()`. */
  datatype Step =
    | InitPropertiesStep | ApplyFiltersStep | AddManagersStep | InitManagersStep
    | AfterInitManagersStep | AddOptionsStep | AddRunActionStep | AfterRunActionStep

  /** The first four steps of `init()`: properties, filters, managers, and their `init`. */
  const SetUpSteps := [InitPropertiesStep, ApplyFiltersStep, AddManagersStep, InitManagersStep]
  /** The last four: the hook after the managers, the options, the run action, the hook after it. */
  const FinishSteps := [AfterInitManagersStep, AddOptionsStep, AddRunActionStep, AfterRunActionStep]
  /** The eight steps of `init()`, in order. */
  const InitSteps := SetUpSteps + FinishSteps

  class Plugin {
    /** `static::class`. */
    const cls: string
    var args: PhpVal
    var config: PhpVal
    var strings: PhpVal
    var runAction: PhpVal
    var options: PhpVal
    /** `$this->managers`, property by property. */
    var managers: seq<Slot>
    /** The managers whose `init` ran, in order. */
    var initialized: seq<string>
    /** The steps of `init()` run so far. */
    var steps: seq<Step>

    /** `__construct()`: runs `init()`, with the AJAX URL the registry holds at that moment. */
    constructor (env: Env, ajaxUrl: PhpVal, host: Host)
      modifies host
      ensures cls == env.cls
      ensures steps == InitSteps
      ensures args == env.filter(FiltersPortionName(env.cls) + "/args", InitialArgs(env, ajaxUrl))
      ensures config == env.filter(FiltersPortionName(env.cls) + "/config", env.defaultConfig)
      ensures strings == env.filter(FiltersPortionName(env.cls) + "/strings", env.defaultStrings)
      ensures runAction == env.filter(FiltersPortionName(env.cls) + "/run_action", env.defaultRunAction)
      ensures managers == if IsNonEmptyArray(env.managerClasses) then ManagerSlots([], env.managerClasses.entries, args, config, strings) else []
      ensures initialized == InitializedManagers(managers, env.withInit)
      ensures options == PArr([])
      ensures host.log == old(host.log) + ApplyFilterCalls(FiltersPortionName(env.cls)) + RunActionCalls(runAction)
      ensures host.required == old(host.required)
    {
      cls := env.cls;
      args := PNull;
      config := PNull;
      strings := PNull;
      runAction := PNull;
      options := PNull;
      managers := [];
      initialized := [];
      steps := [];
      new;
      Init(env, ajaxUrl, host);
      ConcatEmpty(InitSteps);
      ConcatEmpty(InitializedManagers(managers, env.withInit));
    }

    /** `init()`: the eight steps, in order. */
    method Init(env: Env, ajaxUrl: PhpVal, host: Host)
      requires cls == env.cls
      modifies this, host
      ensures steps == old(steps) + InitSteps
      ensures args == env.filter(FiltersPortionName(env.cls) + "/args", InitialArgs(env, ajaxUrl))
      ensures config == env.filter(FiltersPortionName(env.cls) + "/config", env.defaultConfig)
      ensures strings == env.filter(FiltersPortionName(env.cls) + "/strings", env.defaultStrings)
      ensures runAction == env.filter(FiltersPortionName(env.cls) + "/run_action", env.defaultRunAction)
      ensures managers == if IsNonEmptyArray(env.managerClasses) then ManagerSlots([], env.managerClasses.entries, args, config, strings) else []
      ensures initialized == old(initialized) + InitializedManagers(managers, env.withInit)
      ensures options == PArr([])
      ensures host.log == old(host.log) + ApplyFilterCalls(FiltersPortionName(env.cls)) + RunActionCalls(runAction)
      ensures host.required == old(host.required)
    {
      SetUp(env, ajaxUrl, host);
      FinishInit(host);
      ConcatAssoc(old(steps), SetUpSteps, FinishSteps);
    }

    /** The first four steps of `init()`: properties, filters, managers, and their `init`. */
    method SetUp(env: Env, ajaxUrl: PhpVal, host: Host)
      requires cls == env.cls
      modifies this, host
      ensures steps == old(steps) + SetUpSteps
      ensures args == env.filter(FiltersPortionName(env.cls) + "/args", InitialArgs(env, ajaxUrl))
      ensures config == env.filter(FiltersPortionName(env.cls) + "/config", env.defaultConfig)
      ensures strings == env.filter(FiltersPortionName(env.cls) + "/strings", env.defaultStrings)
      ensures runAction == env.filter(FiltersPortionName(env.cls) + "/run_action", env.defaultRunAction)
      ensures managers == if IsNonEmptyArray(env.managerClasses) then ManagerSlots([], env.managerClasses.entries, args, config, strings) else []
      ensures initialized == old(initialized) + InitializedManagers(managers, env.withInit)
      ensures host.log == old(host.log) + ApplyFilterCalls(FiltersPortionName(env.cls)) && host.required == old(host.required)
    {
      InitProperties(env, ajaxUrl);
      ApplyFilters(env, host);
      AddManagers(env);
      InitManagers(env);
      ConcatSingletons(old(steps), InitPropertiesStep, ApplyFiltersStep, AddManagersStep, InitManagersStep);
    }

    /** The last four steps of `init()`: the hook after the managers, the options, the run action, the hook after it. */
    method FinishInit(host: Host)
      modifies this, host
      ensures steps == old(steps) + FinishSteps
      ensures options == PArr([])
      ensures args == old(args) && config == old(config) && strings == old(strings) && runAction == old(runAction)
      ensures managers == old(managers) && initialized == old(initialized)
      ensures host.log == old(host.log) + RunActionCalls(runAction) && host.required == old(host.required)
    {
      steps := steps + [AfterInitManagersStep];
      AddOptions();
      AddRunAction(host);
      steps := steps + [AfterRunActionStep];
      ConcatSingletons(old(steps), AfterInitManagersStep, AddOptionsStep, AddRunActionStep, AfterRunActionStep);
    }

    /** `init_properties()`: empty managers, the initial `args`, and the defaults. */
    method InitProperties(env: Env, ajaxUrl: PhpVal)
      modifies this
      ensures managers == [] && args == InitialArgs(env, ajaxUrl)
      ensures config == env.defaultConfig && strings == env.defaultStrings && runAction == env.defaultRunAction
      ensures steps == old(steps) + [InitPropertiesStep]
      ensures options == old(options) && initialized == old(initialized)
    {
      managers := [];
      args := InitialArgs(env, ajaxUrl);
      config := env.defaultConfig;
      strings := env.defaultStrings;
      runAction := env.defaultRunAction;
      steps := steps + [InitPropertiesStep];
    }

    /** `apply_filters()`: `args`, `config`, `strings` and `run_action` pass through their filters, in that order. */
    method ApplyFilters(env: Env, host: Host)
      requires cls == env.cls
      modifies this, host
      ensures args == env.filter(FiltersPortionName(cls) + "/args", old(args))
      ensures config == env.filter(FiltersPortionName(cls) + "/config", old(config))
      ensures strings == env.filter(FiltersPortionName(cls) + "/strings", old(strings))
      ensures runAction == env.filter(FiltersPortionName(cls) + "/run_action", old(runAction))
      ensures host.log == old(host.log) + ApplyFilterCalls(FiltersPortionName(cls)) && host.required == old(host.required)
      ensures steps == old(steps) + [ApplyFiltersStep]
      ensures managers == old(managers) && options == old(options) && initialized == old(initialized)
    {
      var prefix := FiltersPortionName(cls);
      host.Record(Call.ApplyFilters(prefix + "/args"));
      args := env.filter(prefix + "/args", args);
      host.Record(Call.ApplyFilters(prefix + "/config"));
      config := env.filter(prefix + "/config", config);
      host.Record(Call.ApplyFilters(prefix + "/strings"));
      strings := env.filter(prefix + "/strings", strings);
      host.Record(Call.ApplyFilters(prefix + "/run_action"));
      runAction := env.filter(prefix + "/run_action", runAction);
      steps := steps + [ApplyFiltersStep];
      ConcatSingletons(old(host.log), Call.ApplyFilters(prefix + "/args"), Call.ApplyFilters(prefix + "/config"),
        Call.ApplyFilters(prefix + "/strings"), Call.ApplyFilters(prefix + "/run_action"));
    }

    /** `add_managers()`: nothing for a missing or empty class list, otherwise one manager per key. */
    method AddManagers(env: Env)
      modifies this
      ensures managers == if IsNonEmptyArray(env.managerClasses) then ManagerSlots(old(managers), env.managerClasses.entries, args, config, strings) else old(managers)
      ensures steps == old(steps) + [AddManagersStep]
      ensures args == old(args) && config == old(config) && strings == old(strings) && runAction == old(runAction)
      ensures options == old(options) && initialized == old(initialized)
    {
      steps := steps + [AddManagersStep];
      if !IsNonEmptyArray(env.managerClasses) {
        return;
      }
      var classes := env.managerClasses.entries;
      var i := 0;
      while i < |classes|
        invariant 0 <= i <= |classes|
        invariant ManagerSlots(managers, classes[i..], args, config, strings) == ManagerSlots(old(managers), classes, args, config, strings)
        invariant steps == old(steps) + [AddManagersStep]
        invariant args == old(args) && config == old(config) && strings == old(strings) && runAction == old(runAction)
        invariant options == old(options) && initialized == old(initialized)
      {
        assert classes[i..][1..] == classes[i + 1..];
        managers := SetSlot(managers, PropertyName(classes[i].key), ManagerInstance(classes[i].val, args, config, strings));
        i := i + 1;
      }
      assert classes[i..] == [];
    }

    /** `init_managers()`: `init` on each manager that has it, in property order. */
    method InitManagers(env: Env)
      modifies this
      ensures initialized == old(initialized) + InitializedManagers(managers, env.withInit)
      ensures steps == old(steps) + [InitManagersStep]
      ensures managers == old(managers) && args == old(args) && config == old(config) && strings == old(strings)
      ensures runAction == old(runAction) && options == old(options)
    {
      var i := 0;
      while i < |managers|
        invariant 0 <= i <= |managers|
        invariant initialized == old(initialized) + InitializedManagers(managers[..i], env.withInit)
        invariant managers == old(managers) && args == old(args) && config == old(config) && strings == old(strings)
        invariant runAction == old(runAction) && options == old(options) && steps == old(steps)
      {
        assert managers[..i + 1] == managers[..i] + [managers[i]];
        InitializedManagersAppend(managers[..i], [managers[i]], env.withInit);
        ConcatAssoc(old(initialized), InitializedManagers(managers[..i], env.withInit), InitializedManagers([managers[i]], env.withInit));
        assert [managers[i]][1..] == [];
        if managers[i].manager.cls.PStr? && managers[i].manager.cls.s in env.withInit {
          initialized := initialized + [managers[i].name];
        }
        i := i + 1;
      }
      assert managers[..i] == managers;
      steps := steps + [InitManagersStep];
    }

    /** `add_options()`: the options start empty. */
    method AddOptions()
      modifies this
      ensures options == PArr([]) && steps == old(steps) + [AddOptionsStep]
      ensures managers == old(managers) && args == old(args) && config == old(config) && strings == old(strings)
      ensures runAction == old(runAction) && initialized == old(initialized)
    {
      options := PArr([]);
      steps := steps + [AddOptionsStep];
    }

    /** `add_run_action()`: `run` is hooked on `run_action` when that is a non-empty string. */
    method AddRunAction(host: Host)
      modifies this`steps, host
      ensures host.log == old(host.log) + RunActionCalls(runAction) && host.required == old(host.required)
      ensures steps == old(steps) + [AddRunActionStep]
    {
      if runAction.PStr? && Truthy(runAction) {
        host.Record(AddAction(runAction.s, "run", PInt(RunActionPriority), PInt(RunActionAcceptedArgs)));
      }
      steps := steps + [AddRunActionStep];
    }
  }

  /** The `apply_filters` calls of `apply_filters()`, in order. */
  function ApplyFilterCalls(prefix: string): (r: seq<Call>)
    ensures |r| == 4
    ensures forall i :: 0 <= i < 4 ==> r[i] == Call.ApplyFilters(FilterNames(prefix)[i])
  {
    [Call.ApplyFilters(prefix + "/args"), Call.ApplyFilters(prefix + "/config"),
     Call.ApplyFilters(prefix + "/strings"), Call.ApplyFilters(prefix + "/run_action")]
  }

  /** The static state of `BasePlugin`: one instance per concrete class, and the AJAX URL. */
  class Registry {
    var instances: map<string, Plugin>
    /** `self::$ajax_url`; null until the first `instance()` call sets it. */
    var ajaxUrl: PhpVal

    constructor ()
      ensures instances == map[] && ajaxUrl == PNull
    {
      instances := map[];
      ajaxUrl := PNull;
    }

    /**
     * `instance()`: the plugin of the calling class is built on the first
     * call only (with the AJAX URL held so far), and the AJAX URL is set
     * afterwards when it is still unset.
     */
    method Instance(env: Env, host: Host) returns (p: Plugin)
      modifies this, host
      ensures env.cls in old(instances) ==> p == old(instances)[env.cls] && host.log == old(host.log)
      ensures env.cls !in old(instances) ==>
        fresh(p) && p.cls == env.cls &&
        p.args == env.filter(FiltersPortionName(env.cls) + "/args", InitialArgs(env, old(ajaxUrl)))
      ensures instances == old(instances)[env.cls := p]
      ensures ajaxUrl == if old(ajaxUrl) == PNull then PStr(env.adminAjaxUrl) else old(ajaxUrl)
    {
      if env.cls !in instances {
        p := new Plugin(env, ajaxUrl, host);
        instances := instances[env.cls := p];
      }
      if ajaxUrl == PNull {
        ajaxUrl := PStr(env.adminAjaxUrl);
      }
      p := instances[env.cls];
    }

    /**
     * `instance()` with the AJAX URL set before the plugin is built, so
     * that even the first plugin's `args` carry it.
     */
    method InstanceAjaxFirst(env: Env, host: Host) returns (p: Plugin)
      modifies this, host
      ensures env.cls in old(instances) ==> p == old(instances)[env.cls] && host.log == old(host.log)
      ensures env.cls !in old(instances) ==>
        fresh(p) && p.cls == env.cls &&
        p.args == env.filter(FiltersPortionName(env.cls) + "/args", InitialArgs(env, ajaxUrl))
      ensures instances == old(instances)[env.cls := p]
      ensures ajaxUrl == if old(ajaxUrl) == PNull then PStr(env.adminAjaxUrl) else old(ajaxUrl)
      ensures ajaxUrl != PNull
    {
      if ajaxUrl == PNull {
        ajaxUrl := PStr(env.adminAjaxUrl);
      }
      if env.cls !in instances {
        p := new Plugin(env, ajaxUrl, host);
        instances := instances[env.cls := p];
      }
      p := instances[env.cls];
    }
  }

  /**
   * As written, the first plugin ever built receives `args` whose
   * `ajax_url` is null, so its managers get no AJAX URL; built after the
   * URL is set, the same plugin's managers get it.
   */
  lemma FirstPluginHasNoAjaxUrl(env: Env)
    ensures PluginManager.ArgOrNull(InitialArgs(env, PNull), "ajax_url") == PNull
    ensures !IsSetOn(InitialArgs(env, PNull), "ajax_url")
    ensures IsSetOn(InitialArgs(env, PStr(env.adminAjaxUrl)), "ajax_url")
  {
    InitialArgsAjaxUrl(env, PNull);
    InitialArgsAjaxUrl(env, PStr(env.adminAjaxUrl));
  }

  /** With the URL set first, every plugin's initial `args` carry the AJAX URL. */
  lemma AjaxFirstArgsCarryUrl(env: Env, ajaxUrl: PhpVal)
    requires ajaxUrl != PNull
    ensures IsSetOn(InitialArgs(env, ajaxUrl), "ajax_url")
    ensures PluginManager.ArgOrNull(InitialArgs(env, ajaxUrl), "ajax_url") == ajaxUrl
  {
    InitialArgsAjaxUrl(env, ajaxUrl);
  }
}
