/**
 * `Managers\Tabs`: registers the plugin's site-settings tabs with
 * Elementor's kit and collects the controls whose changes the editor
 * watches.
 */
module TabsManager {
  import opened Wrappers
  import opened PhpValues
  import opened Host
  import opened ManagersBase
  import opened ManagerWiring
  import Dedup

  const BaseTabFile := "Managers/../Tabs/BaseTab.php"
  const TabsFilter := "arts/elementor_extension/tabs/tabs"
  const TabsRegisteredAction := "arts/elementor_extension/tabs/tabs_registered"
  const LiveSettingsFilter := "arts/elementor_extension/editor/live_settings"

  /** The class one tab entry contributes: its `class`, when set and the class exists. */
  function AcceptedClass(tab: PhpVal, classes: map<string, ClassInfo>): seq<string> {
    match StringAt(tab, "class")
    case Some(c) => if c in classes then [c] else []
    case None => []
  }

  /** The classes `register` accepts, in tab order: a `class` is set and the class exists. */
  function RegisteredClasses(tabs: seq<PhpVal>, classes: map<string, ClassInfo>): seq<string> {
    if tabs == [] then [] else AcceptedClass(tabs[0], classes) + RegisteredClasses(tabs[1..], classes)
  }

  /** The `register_tab(TAB_ID, class)` call one tab entry leads to, if any. */
  function TabRegisterCall(tab: PhpVal, classes: map<string, ClassInfo>): seq<Call> {
    match StringAt(tab, "class")
    case Some(c) => if c in classes then [RegisterTab(classes[c].tabId, c)] else []
    case None => []
  }

  /** The `register_tab(TAB_ID, class)` calls `register` makes, in tab order. */
  function RegisterTabCalls(tabs: seq<PhpVal>, classes: map<string, ClassInfo>): seq<Call> {
    if tabs == [] then [] else TabRegisterCall(tabs[0], classes) + RegisterTabCalls(tabs[1..], classes)
  }

  /** One `register_tab` call per accepted class, in the same order, each with that class's `TAB_ID`. */
  lemma {:induction false} RegisterTabCallsMatchClasses(tabs: seq<PhpVal>, classes: map<string, ClassInfo>)
    ensures var accepted := RegisteredClasses(tabs, classes);
      var calls := RegisterTabCalls(tabs, classes);
      |calls| == |accepted| &&
      forall i :: 0 <= i < |accepted| ==> accepted[i] in classes && calls[i] == RegisterTab(classes[accepted[i]].tabId, accepted[i])
  {
    if tabs != [] {
      RegisterTabCallsMatchClasses(tabs[1..], classes);
    }
  }

  /** The files the tabs name, in order. */
  function TabFiles(tabs: seq<PhpVal>): seq<string> {
    if tabs == [] then []
    else (match StringAt(tabs[0], "file") case Some(f) => [f] case None => []) + TabFiles(tabs[1..])
  }

  /** The tab files that exist, which `register` loads. */
  function LoadedTabFiles(tabs: seq<PhpVal>, files: set<string>): set<string> {
    set f | f in TabFiles(tabs) && f in files
  }

  lemma LoadedTabFilesAppend(xs: seq<PhpVal>, ys: seq<PhpVal>, files: set<string>)
    ensures LoadedTabFiles(xs + ys, files) == LoadedTabFiles(xs, files) + LoadedTabFiles(ys, files)
  {
    TabFilesAppend(xs, ys);
  }

  /** The live controls a tab contributes: its class's non-empty `EDITOR_CHANGE_CALLBACK_CONTROLS` list. */
  function TabLiveControls(tab: PhpVal, classes: map<string, ClassInfo>): seq<string> {
    match StringAt(tab, "class")
    case Some(c) =>
      if c in classes && classes[c].liveControls.Some? && classes[c].liveControls.value.ListConst?
      then classes[c].liveControls.value.items
      else []
    case None => []
  }

  /** Some tab is a string, on which `$tab['class']` throws. */
  predicate HasStringTab(tabs: seq<PhpVal>) {
    exists i :: 0 <= i < |tabs| && tabs[i].PStr?
  }

  /** All tabs' live controls, concatenated in tab order. */
  function AllLiveControls(tabs: seq<PhpVal>, classes: map<string, ClassInfo>): seq<string> {
    if tabs == [] then [] else TabLiveControls(tabs[0], classes) + AllLiveControls(tabs[1..], classes)
  }

  lemma {:induction false} RegisteredClassesAppend(xs: seq<PhpVal>, ys: seq<PhpVal>, classes: map<string, ClassInfo>)
    ensures RegisteredClasses(xs + ys, classes) == RegisteredClasses(xs, classes) + RegisteredClasses(ys, classes)
  {
    if xs == [] {
      assert xs + ys == ys;
    } else {
      var zs := xs + ys;
      assert zs[0] == xs[0] && zs[1..] == xs[1..] + ys;
      RegisteredClassesAppend(xs[1..], ys, classes);
      ConcatAssoc(AcceptedClass(xs[0], classes), RegisteredClasses(xs[1..], classes), RegisteredClasses(ys, classes));
    }
  }

  lemma {:induction false} RegisterTabCallsAppend(xs: seq<PhpVal>, ys: seq<PhpVal>, classes: map<string, ClassInfo>)
    ensures RegisterTabCalls(xs + ys, classes) == RegisterTabCalls(xs, classes) + RegisterTabCalls(ys, classes)
  {
    if xs == [] {
      assert xs + ys == ys;
    } else {
      var zs := xs + ys;
      assert zs[0] == xs[0] && zs[1..] == xs[1..] + ys;
      RegisterTabCallsAppend(xs[1..], ys, classes);
      ConcatAssoc(TabRegisterCall(xs[0], classes), RegisterTabCalls(xs[1..], classes), RegisterTabCalls(ys, classes));
    }
  }

  lemma {:induction false} TabFilesAppend(xs: seq<PhpVal>, ys: seq<PhpVal>)
    ensures TabFiles(xs + ys) == TabFiles(xs) + TabFiles(ys)
  {
    if xs == [] {
      assert xs + ys == ys;
    } else {
      var zs := xs + ys;
      assert zs[0] == xs[0] && zs[1..] == xs[1..] + ys;
      TabFilesAppend(xs[1..], ys);
      ConcatAssoc(match StringAt(xs[0], "file") case Some(f) => [f] case None => [], TabFiles(xs[1..]), TabFiles(ys));
    }
  }

  lemma {:induction false} AllLiveControlsAppend(xs: seq<PhpVal>, ys: seq<PhpVal>, classes: map<string, ClassInfo>)
    ensures AllLiveControls(xs + ys, classes) == AllLiveControls(xs, classes) + AllLiveControls(ys, classes)
  {
    if xs == [] {
      assert xs + ys == ys;
    } else {
      var zs := xs + ys;
      assert zs[0] == xs[0] && zs[1..] == xs[1..] + ys;
      AllLiveControlsAppend(xs[1..], ys, classes);
      ConcatAssoc(TabLiveControls(xs[0], classes), AllLiveControls(xs[1..], classes), AllLiveControls(ys, classes));
    }
  }

  /** One more tab adds its own live controls at the end. */
  lemma AllLiveControlsStep(all: seq<PhpVal>, i: nat, classes: map<string, ClassInfo>)
    requires i < |all|
    ensures AllLiveControls(all[..i + 1], classes) == AllLiveControls(all[..i], classes) + TabLiveControls(all[i], classes)
  {
    assert all[..i + 1] == all[..i] + [all[i]];
    AllLiveControlsAppend(all[..i], [all[i]], classes);
    assert [all[i]][1..] == [];
    ConcatEmpty(TabLiveControls(all[i], classes));
  }

  lemma {:induction false} RegisteredClassesExist(tabs: seq<PhpVal>, classes: map<string, ClassInfo>)
    ensures forall c :: c in RegisteredClasses(tabs, classes) ==> c in classes
  {
    if tabs != [] {
      RegisteredClassesExist(tabs[1..], classes);
    }
  }

  /**
   * A class is registered exactly when some tab names it and the class
   * exists; tabs without a class, or naming a missing class, are skipped.
   */
  lemma {:induction false} RegisteredClassesMembers(tabs: seq<PhpVal>, classes: map<string, ClassInfo>)
    ensures forall c :: c in RegisteredClasses(tabs, classes) <==>
      c in classes && exists i :: 0 <= i < |tabs| && StringAt(tabs[i], "class") == Some(c)
    ensures |RegisteredClasses(tabs, classes)| <= |tabs|
  {
    if tabs != [] {
      RegisteredClassesMembers(tabs[1..], classes);
      assert forall i :: 1 <= i < |tabs| ==> tabs[i] == tabs[1..][i - 1];
      forall c | c in classes && exists i :: 0 <= i < |tabs| && StringAt(tabs[i], "class") == Some(c)
        ensures c in RegisteredClasses(tabs, classes)
      {
        var i :| 0 <= i < |tabs| && StringAt(tabs[i], "class") == Some(c);
        if i > 0 {
          assert StringAt(tabs[1..][i - 1], "class") == Some(c);
        }
      }
    }
  }

  /** `array_merge($live_settings, $tab_live_controls)` with a list as the second array. */
  function ListArray(xs: seq<string>): (r: seq<Pair>)
    ensures |r| == |xs|
    ensures forall i :: 0 <= i < |xs| ==> r[i] == Pair(IntKey(i), PStr(xs[i]))
  {
    NumberedFrom(xs, 0)
  }

  /** The strings of `xs` under the integer keys `n`, `n + 1`, ... */
  function NumberedFrom(xs: seq<string>, n: nat): (r: seq<Pair>)
    ensures |r| == |xs|
    ensures forall i :: 0 <= i < |xs| ==> r[i] == Pair(IntKey(n + i), PStr(xs[i]))
  {
    if xs == [] then [] else [Pair(IntKey(n), PStr(xs[0]))] + NumberedFrom(xs[1..], n + 1)
  }

  function Strs(xs: seq<string>): (r: seq<PhpVal>)
    ensures |r| == |xs|
    ensures forall i :: 0 <= i < |xs| ==> r[i] == PStr(xs[i])
  {
    if xs == [] then [] else [PStr(xs[0])] + Strs(xs[1..])
  }

  lemma ListArrayShape(xs: seq<string>)
    ensures var r := ListArray(xs);
      IntKeyedValues(r) == Strs(xs) && (forall s :: !KeyExists(r, StrKey(s))) && WellFormed(r)
  {
    var r := ListArray(xs);
    ListArrayValues(xs, 0);
    forall s
      ensures !KeyExists(r, StrKey(s))
    {
      assert forall j :: 0 <= j < |r| ==> r[j].key != StrKey(s);
    }
    assert WellFormed(r);
  }

  lemma {:induction false} ListArrayValues(xs: seq<string>, n: nat)
    ensures IntKeyedValues(NumberedFrom(xs, n)) == Strs(xs)
  {
    if xs != [] {
      var r := NumberedFrom(xs, n);
      assert r[0] == Pair(IntKey(n), PStr(xs[0])) && r[1..] == NumberedFrom(xs[1..], n + 1);
      ListArrayValues(xs[1..], n + 1);
    }
  }

  class Tabs {
    const base: BaseManager
    /** `$this->tabs`: the tabs to register, after the `tabs` filter. */
    var tabs: PhpVal
    /** `$this->references`: the classes registered so far. */
    var references: seq<string>

    constructor (args: PhpVal, strings: PhpVal)
      ensures tabs == PArr([]) && references == []
      ensures base.args == args && base.strings == strings && base.requireFiles == [BaseTabFile]
      ensures fresh(base)
    {
      base := new BaseManager(args, strings, [BaseTabFile]);
      tabs := PArr([]);
      references := [];
    }

    /** `apply_filters()`: the `tabs` filter replaces the tab list with whatever it returns. */
    method ApplyTabsFilter(host: Host, filtered: PhpVal)
      modifies this, host
      ensures tabs == filtered && references == old(references)
      ensures host.log == old(host.log) + [ApplyFilters(TabsFilter)] && host.required == old(host.required)
    {
      host.Record(ApplyFilters(TabsFilter));
      tabs := filtered;
    }

    /**
     * `init($managers)`, inherited from the base manager: `apply_filters`,
     * which this class overrides, runs first, then `add_managers`, whose
     * `$this` is this tabs manager, so this manager is never stored.
     */
    method Init(host: Host, filtered: PhpVal, input: seq<ManagerEntry>)
      modifies this, base, host
      ensures tabs == filtered && references == old(references)
      ensures host.log == old(host.log) + [ApplyFilters(TabsFilter)] && host.required == old(host.required)
      ensures base.steps == old(base.steps) + [ApplyFiltersStep, AddManagersStep]
      ensures base.managers == Some(Added(old(base.managers).GetOr(map[]), input, this))
      ensures base.args == old(base.args) && base.strings == old(base.strings) && base.properties == old(base.properties)
      ensures (forall k :: k in old(base.managers).GetOr(map[]) ==> old(base.managers).GetOr(map[])[k] != this) ==>
        forall k :: k in base.managers.value ==> base.managers.value[k] != this
    {
      ApplyTabsFilter(host, filtered);
      base.Init(input, this);
      AddedProperties(old(base.managers).GetOr(map[]), input, this);
    }

    /**
     * `register($kit)`: nothing at all for a missing or empty tab list;
     * otherwise the files are loaded, every tab whose class exists is
     * appended to the references and registered with the kit in tab
     * order, and the hooks are announced.
     */
    method Register(host: Host)
      modifies this, host
      ensures tabs == old(tabs)
      ensures !IsNonEmptyArray(tabs) ==> references == old(references) && host.log == old(host.log) && host.required == old(host.required)
      ensures IsNonEmptyArray(tabs) ==>
        references == old(references) + RegisteredClasses(ValuesOf(tabs.entries), host.classes) &&
        host.log == old(host.log) + RegisterTabCalls(ValuesOf(tabs.entries), host.classes)
          + [DoAction(TabsRegisteredAction), AddFilter(LiveSettingsFilter, "add_tab_live_settings")] &&
        host.required == old(host.required)
          + (set f | f in ExistingFiles(base.requireFiles, host.files))
          + LoadedTabFiles(ValuesOf(tabs.entries), host.files)
    {
      if !IsNonEmptyArray(tabs) {
        return;
      }
      base.RequireFiles(host);
      RegisterAll(host, ValuesOf(tabs.entries));
      host.Record(DoAction(TabsRegisteredAction));
      host.Record(AddFilter(LiveSettingsFilter, "add_tab_live_settings"));
    }

    /** The loop of `register` over the tabs, in order. */
    method RegisterAll(host: Host, all: seq<PhpVal>)
      modifies this`references, host
      ensures references == old(references) + RegisteredClasses(all, host.classes)
      ensures host.log == old(host.log) + RegisterTabCalls(all, host.classes)
      ensures host.required == old(host.required) + LoadedTabFiles(all, host.files)
    {
      var i := 0;
      while i < |all|
        invariant 0 <= i <= |all|
        invariant references == old(references) + RegisteredClasses(all[..i], host.classes)
        invariant host.log == old(host.log) + RegisterTabCalls(all[..i], host.classes)
        invariant host.required == old(host.required) + LoadedTabFiles(all[..i], host.files)
      {
        assert all[..i + 1] == all[..i] + [all[i]];
        RegisteredClassesAppend(all[..i], [all[i]], host.classes);
        RegisterTabCallsAppend(all[..i], [all[i]], host.classes);
        ConcatAssoc(old(references), RegisteredClasses(all[..i], host.classes), RegisteredClasses([all[i]], host.classes));
        ConcatAssoc(old(host.log), RegisterTabCalls(all[..i], host.classes), RegisterTabCalls([all[i]], host.classes));
        LoadedTabFilesAppend(all[..i], [all[i]], host.files);
        RegisterEntry(host, all[i]);
        i := i + 1;
      }
      assert all[..i] == all;
    }

    /** The body of `register`'s loop for one tab. */
    method RegisterEntry(host: Host, tab: PhpVal)
      modifies this`references, host
      ensures references == old(references) + RegisteredClasses([tab], host.classes)
      ensures host.log == old(host.log) + RegisterTabCalls([tab], host.classes)
      ensures host.required == old(host.required) + LoadedTabFiles([tab], host.files)
    {
      assert [tab][1..] == [];
      var file := StringAt(tab, "file");
      if file.Some? {
        assert TabFiles([tab]) == [file.value];
        assert LoadedTabFiles([tab], host.files) == if file.value in host.files then {file.value} else {};
        host.RequireIfExists(file.value);
      } else {
        assert TabFiles([tab]) == [];
        assert LoadedTabFiles([tab], host.files) == {};
      }
      ConcatEmpty(AcceptedClass(tab, host.classes));
      ConcatEmpty(TabRegisterCall(tab, host.classes));
      var cls := StringAt(tab, "class");
      if cls.Some? && cls.value in host.classes {
        references := references + [cls.value];
        host.Record(RegisterTab(host.classes[cls.value].tabId, cls.value));
      } else {
        ConcatEmpty(references);
        ConcatEmpty(host.log);
      }
    }

    /**
     * `get_tabs_live_controls()`: the live controls of every tab, in tab
     * order, each kept at its first occurrence; a tab that is a string
     * makes `$tab['class']` throw, whatever the other tabs hold.
     */
    method GetTabsLiveControls(host: Host) returns (r: Result<seq<string>>)
      ensures tabs.PArr? && !HasStringTab(ValuesOf(tabs.entries)) ==>
        r == Ok(Dedup.Unique(AllLiveControls(ValuesOf(tabs.entries), host.classes)))
      ensures tabs.PArr? && HasStringTab(ValuesOf(tabs.entries)) ==> r == Err(StringOffsetError)
      ensures !tabs.PArr? ==> r == Ok([])
      ensures r.Ok? ==> Dedup.NoDuplicates(r.value)
    {
      if !tabs.PArr? {
        return Ok([]);
      }
      var collected := CollectAll(host.classes, ValuesOf(tabs.entries));
      if collected.Err? {
        return Err(collected.error);
      }
      var controls := Dedup.Deduplicate(collected.value);
      r := Ok(controls);
    }

    /**
     * `add_tab_live_settings($live_settings)`: the incoming list comes
     * first, then the tabs' live controls, renumbered; string keys of the
     * incoming array are kept. The `TypeError` of a string tab passes through.
     */
    method AddTabLiveSettings(host: Host, liveSettings: seq<Pair>) returns (r: Result<seq<Pair>>)
      requires WellFormed(liveSettings)
      ensures r.Err? <==> tabs.PArr? && HasStringTab(ValuesOf(tabs.entries))
      ensures r.Err? ==> r.error == StringOffsetError
      ensures r.Ok? && tabs.PArr? ==>
        IntKeyedValues(r.value) == IntKeyedValues(liveSettings) + Strs(Dedup.Unique(AllLiveControls(ValuesOf(tabs.entries), host.classes)))
      ensures r.Ok? ==> forall s :: Lookup(r.value, StrKey(s)) == Lookup(liveSettings, StrKey(s))
    {
      var controls := GetTabsLiveControls(host);
      if controls.Err? {
        return Err(controls.error);
      }
      var own := ListArray(controls.value);
      ListArrayShape(controls.value);
      var merged := ArrayMerge(liveSettings, own);
      ArrayMergeIntKeys(liveSettings, own);
      forall s ensures Lookup(merged, StrKey(s)) == Lookup(liveSettings, StrKey(s)) {
        ArrayMergeStringKeys(liveSettings, own, s);
      }
      r := Ok(merged);
    }
  }

  /** The loop of `get_tabs_live_controls` over the tabs, in order, stopped by the first string tab. */
  method CollectAll(classes: map<string, ClassInfo>, all: seq<PhpVal>) returns (r: Result<seq<string>>)
    ensures !HasStringTab(all) ==> r == Ok(AllLiveControls(all, classes))
    ensures HasStringTab(all) ==> r == Err(StringOffsetError)
  {
    var collected: seq<string> := [];
    var i := 0;
    while i < |all|
      invariant 0 <= i <= |all|
      invariant collected == AllLiveControls(all[..i], classes)
      invariant forall j :: 0 <= j < i ==> !all[j].PStr?
    {
      if all[i].PStr? {
        assert HasStringTab(all) by { assert 0 <= i < |all| && all[i].PStr?; }
        var thrown := Offset(all[i], "class");
        return Err(thrown.error);
      }
      AllLiveControlsStep(all, i, classes);
      collected := CollectTab(classes, all[i], collected);
      i := i + 1;
    }
    assert all[..i] == all;
    assert !HasStringTab(all);
    r := Ok(collected);
  }

  /** The body of `get_tabs_live_controls`'s loop for a tab that is not a string. */
  method CollectTab(classes: map<string, ClassInfo>, tab: PhpVal, collected: seq<string>) returns (r: seq<string>)
    ensures r == collected + TabLiveControls(tab, classes)
  {
    var cls := StringAt(tab, "class");
    if cls.Some? && cls.value in classes && classes[cls.value].liveControls.Some?
      && classes[cls.value].liveControls.value.ListConst? && classes[cls.value].liveControls.value.items != [] {
      r := collected + classes[cls.value].liveControls.value.items;
    } else {
      ConcatEmpty(collected);
      r := collected;
    }
  }

  /**
   * Registering is not idempotent: a second `register` on the same tab
   * list appends the accepted classes to the references again and
   * registers them with the kit again, so the references then hold every
   * accepted class twice.
   */
  method RegisterTwice(t: Tabs, host: Host)
    modifies t, host
    ensures t.tabs == old(t.tabs)
    ensures IsNonEmptyArray(t.tabs) ==>
      var accepted := RegisteredClasses(ValuesOf(t.tabs.entries), host.classes);
      var once := RegisterTabCalls(ValuesOf(t.tabs.entries), host.classes)
        + [DoAction(TabsRegisteredAction), AddFilter(LiveSettingsFilter, "add_tab_live_settings")];
      t.references == old(t.references) + accepted + accepted &&
      host.log == old(host.log) + once + once &&
      (accepted != [] ==> t.references != old(t.references) + accepted)
    ensures !IsNonEmptyArray(t.tabs) ==> t.references == old(t.references) && host.log == old(host.log)
  {
    t.Register(host);
    t.Register(host);
    if IsNonEmptyArray(t.tabs) {
      var accepted := RegisteredClasses(ValuesOf(t.tabs.entries), host.classes);
      assert |t.references| == |old(t.references)| + 2 * |accepted|;
    }
  }
}
