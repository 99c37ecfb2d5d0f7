/**
 * `Managers\Widgets`: instantiates the plugin's widgets once, registers
 * them with Elementor's widgets manager, runs their init actions and
 * assembles the editor script that starts their handlers.
 */
module WidgetsManager {
  import opened Wrappers
  import opened PhpValues
  import opened Host
  import opened ManagersBase
  import opened ManagerWiring
  import Text

  const BaseWidgetFile := "Managers/../Widgets/BaseWidget.php"
  const BaseSkinFile := "Managers/../Widgets/BaseSkin.php"
  const WidgetsFilter := "arts/elementor_extension/widgets/widgets"
  const WidgetsRegisteredAction := "arts/elementor_extension/widgets/widgets_registered"

  /** The text before and after the handler strings in the editor script. */
  const EditorJsPrefix := "\n'use strict';\n(function() {\nwindow.addEventListener('elementor/frontend/init', onElementorInit, {once: true});\nfunction onElementorInit() {\n"
  const EditorJsSuffix := "\n}\n})();"

  /** A widget object, known by its class and what that class provides. */
  datatype WidgetInstance = WidgetInstance(cls: string, info: ClassInfo)

  /** A widget entry whose `file` is set and exists and whose `class` is set: its file is loaded. */
  predicate IsLoadable(widget: PhpVal, files: set<string>) {
    StringAt(widget, "file").Some? && StringAt(widget, "file").value in files && StringAt(widget, "class").Some?
  }

  /** The files `instantiate` loads for the widget entries, in order. */
  function WidgetFiles(widgets: seq<PhpVal>, files: set<string>): seq<string> {
    if widgets == [] then []
    else
      (if IsLoadable(widgets[0], files) then [StringAt(widgets[0], "file").value] else [])
      + WidgetFiles(widgets[1..], files)
  }

  /** The instances `instantiate` creates: one per loadable entry whose class exists, in order. */
  function WidgetInstances(widgets: seq<PhpVal>, files: set<string>, classes: map<string, ClassInfo>): seq<WidgetInstance> {
    if widgets == [] then [] else WidgetInstanceOf(widgets[0], files, classes) + WidgetInstances(widgets[1..], files, classes)
  }

  /** The instance one widget entry yields: when it is loadable and its class exists. */
  function WidgetInstanceOf(widget: PhpVal, files: set<string>, classes: map<string, ClassInfo>): seq<WidgetInstance> {
    if IsLoadable(widget, files) && StringAt(widget, "class").value in classes
    then [WidgetInstance(StringAt(widget, "class").value, classes[StringAt(widget, "class").value])]
    else []
  }

  /** `$this->instances` after `instantiate()`, starting from `current`. */
  function Instantiated(current: seq<WidgetInstance>, widgets: PhpVal, files: set<string>, classes: map<string, ClassInfo>): seq<WidgetInstance> {
    if current != [] then current
    else if IsNonEmptyArray(widgets) then WidgetInstances(ValuesOf(widgets.entries), files, classes)
    else []
  }

  /** The files loaded by `instantiate()`, starting from `current`. */
  function InstantiateLoads(current: seq<WidgetInstance>, widgets: PhpVal, requireFiles: seq<string>, files: set<string>): set<string> {
    if current != [] then {}
    else
      (set f | f in ExistingFiles(requireFiles, files))
      + (if IsNonEmptyArray(widgets) then set f | f in WidgetFiles(ValuesOf(widgets.entries), files) else {})
  }

  /** The calls `register` makes for the instances: nothing when there are none. */
  function RegisterCalls(instances: seq<WidgetInstance>): seq<Call> {
    if instances == [] then [] else RegisterWidgetCalls(instances) + [DoAction(WidgetsRegisteredAction)]
  }

  function RegisterWidgetCalls(instances: seq<WidgetInstance>): (r: seq<Call>)
    ensures |r| == |instances|
    ensures forall i :: 0 <= i < |instances| ==> r[i] == RegisterWidget(instances[i].cls)
  {
    if instances == [] then [] else [RegisterWidget(instances[0].cls)] + RegisterWidgetCalls(instances[1..])
  }

  lemma {:induction false} RegisterWidgetCallsAppend(xs: seq<WidgetInstance>, ys: seq<WidgetInstance>)
    ensures RegisterWidgetCalls(xs + ys) == RegisterWidgetCalls(xs) + RegisterWidgetCalls(ys)
  {
    if xs == [] {
      assert xs + ys == ys;
    } else {
      var zs := xs + ys;
      assert zs[0] == xs[0] && zs[1..] == xs[1..] + ys;
      RegisterWidgetCallsAppend(xs[1..], ys);
      ConcatAssoc([RegisterWidget(xs[0].cls)], RegisterWidgetCalls(xs[1..]), RegisterWidgetCalls(ys));
    }
  }

  /** The `add_init_action()` calls, for the instances whose class has that method, in order. */
  function InitActionCalls(instances: seq<WidgetInstance>): seq<Call> {
    if instances == [] then []
    else (if instances[0].info.hasAddInitAction then [InitAction(instances[0].cls)] else []) + InitActionCalls(instances[1..])
  }

  /** The handler strings of the instances that provide one, in order. */
  function HandlerStrings(instances: seq<WidgetInstance>): seq<string> {
    if instances == [] then []
    else (match instances[0].info.editorJs case Some(js) => [js] case None => []) + HandlerStrings(instances[1..])
  }

  /** `get_elementor_editor_js_string()` for the given instances. */
  function EditorJsString(instances: seq<WidgetInstance>): string {
    if instances == [] then "" else EditorJsPrefix + Text.Join("\n", HandlerStrings(instances)) + EditorJsSuffix
  }

  lemma {:induction false} WidgetFilesAppend(xs: seq<PhpVal>, ys: seq<PhpVal>, files: set<string>)
    ensures WidgetFiles(xs + ys, files) == WidgetFiles(xs, files) + WidgetFiles(ys, files)
  {
    if xs == [] {
      assert xs + ys == ys;
    } else {
      var zs := xs + ys;
      assert zs[0] == xs[0] && zs[1..] == xs[1..] + ys;
      WidgetFilesAppend(xs[1..], ys, files);
      ConcatAssoc(if IsLoadable(xs[0], files) then [StringAt(xs[0], "file").value] else [], WidgetFiles(xs[1..], files), WidgetFiles(ys, files));
    }
  }

  lemma {:induction false} WidgetInstancesAppend(xs: seq<PhpVal>, ys: seq<PhpVal>, files: set<string>, classes: map<string, ClassInfo>)
    ensures WidgetInstances(xs + ys, files, classes) == WidgetInstances(xs, files, classes) + WidgetInstances(ys, files, classes)
  {
    if xs == [] {
      assert xs + ys == ys;
    } else {
      var zs := xs + ys;
      assert zs[0] == xs[0] && zs[1..] == xs[1..] + ys;
      WidgetInstancesAppend(xs[1..], ys, files, classes);
      ConcatAssoc(WidgetInstanceOf(xs[0], files, classes), WidgetInstances(xs[1..], files, classes), WidgetInstances(ys, files, classes));
    }
  }

  lemma {:induction false} InitActionCallsAppend(xs: seq<WidgetInstance>, ys: seq<WidgetInstance>)
    ensures InitActionCalls(xs + ys) == InitActionCalls(xs) + InitActionCalls(ys)
  {
    if xs == [] {
      assert xs + ys == ys;
    } else {
      var zs := xs + ys;
      assert zs[0] == xs[0] && zs[1..] == xs[1..] + ys;
      InitActionCallsAppend(xs[1..], ys);
      ConcatAssoc(if xs[0].info.hasAddInitAction then [InitAction(xs[0].cls)] else [], InitActionCalls(xs[1..]), InitActionCalls(ys));
    }
  }

  lemma {:induction false} HandlerStringsAppend(xs: seq<WidgetInstance>, ys: seq<WidgetInstance>)
    ensures HandlerStrings(xs + ys) == HandlerStrings(xs) + HandlerStrings(ys)
  {
    if xs == [] {
      assert xs + ys == ys;
    } else {
      var zs := xs + ys;
      assert zs[0] == xs[0] && zs[1..] == xs[1..] + ys;
      HandlerStringsAppend(xs[1..], ys);
      ConcatAssoc(match xs[0].info.editorJs case Some(js) => [js] case None => [], HandlerStrings(xs[1..]), HandlerStrings(ys));
    }
  }

  /**
   * An instance is created exactly for each entry whose file is set and
   * exists and whose class is set and exists, in entry order; every
   * instance carries its class's own description.
   */
  lemma {:induction false} WidgetInstancesMembers(widgets: seq<PhpVal>, files: set<string>, classes: map<string, ClassInfo>)
    ensures forall w :: w in WidgetInstances(widgets, files, classes) ==> w.cls in classes && w.info == classes[w.cls]
    ensures forall c :: (exists w :: w in WidgetInstances(widgets, files, classes) && w.cls == c) <==>
      c in classes && exists i :: 0 <= i < |widgets| && IsLoadable(widgets[i], files) && StringAt(widgets[i], "class") == Some(c)
    ensures |WidgetInstances(widgets, files, classes)| <= |widgets|
  {
    WidgetInstancesSound(widgets, files, classes);
    forall c
      ensures (exists w :: w in WidgetInstances(widgets, files, classes) && w.cls == c) <==>
        c in classes && exists i :: 0 <= i < |widgets| && IsLoadable(widgets[i], files) && StringAt(widgets[i], "class") == Some(c)
    {
      WidgetInstancesClass(widgets, files, classes, c);
    }
  }

  lemma {:induction false} WidgetInstancesSound(widgets: seq<PhpVal>, files: set<string>, classes: map<string, ClassInfo>)
    ensures forall w :: w in WidgetInstances(widgets, files, classes) ==> w.cls in classes && w.info == classes[w.cls]
    ensures |WidgetInstances(widgets, files, classes)| <= |widgets|
  {
    if widgets != [] {
      WidgetInstancesSound(widgets[1..], files, classes);
      assert WidgetInstances(widgets, files, classes)
        == WidgetInstanceOf(widgets[0], files, classes) + WidgetInstances(widgets[1..], files, classes);
    }
  }

  lemma {:induction false} WidgetInstancesClass(widgets: seq<PhpVal>, files: set<string>, classes: map<string, ClassInfo>, c: string)
    ensures (exists w :: w in WidgetInstances(widgets, files, classes) && w.cls == c) <==>
      c in classes && exists i :: 0 <= i < |widgets| && IsLoadable(widgets[i], files) && StringAt(widgets[i], "class") == Some(c)
  {
    if widgets != [] {
      var head := WidgetInstanceOf(widgets[0], files, classes);
      var rest := WidgetInstances(widgets[1..], files, classes);
      assert WidgetInstances(widgets, files, classes) == head + rest;
      WidgetInstancesClass(widgets[1..], files, classes, c);
      if exists w: WidgetInstance :: w in head + rest && w.cls == c {
        var w: WidgetInstance :| w in head + rest && w.cls == c;
        if w in head {
          assert IsLoadable(widgets[0], files) && StringAt(widgets[0], "class") == Some(c);
        } else {
          var j :| 0 <= j < |widgets[1..]| && IsLoadable(widgets[1..][j], files) && StringAt(widgets[1..][j], "class") == Some(c);
          assert widgets[1..][j] == widgets[j + 1];
        }
      }
      if c in classes && exists i :: 0 <= i < |widgets| && IsLoadable(widgets[i], files) && StringAt(widgets[i], "class") == Some(c) {
        var i :| 0 <= i < |widgets| && IsLoadable(widgets[i], files) && StringAt(widgets[i], "class") == Some(c);
        if i == 0 {
          assert WidgetInstance(c, classes[c]) in head;
        } else {
          assert widgets[1..][i - 1] == widgets[i];
          var w :| w in rest && w.cls == c;
          assert w in head + rest;
        }
      }
    }
  }

  /** No loadable entry with an existing class means no instance, so the next call tries again. */
  lemma {:induction false} WidgetInstancesEmpty(widgets: seq<PhpVal>, files: set<string>, classes: map<string, ClassInfo>)
    ensures WidgetInstances(widgets, files, classes) == [] <==>
      forall i :: 0 <= i < |widgets| && IsLoadable(widgets[i], files) ==> StringAt(widgets[i], "class").value !in classes
  {
    if widgets != [] {
      WidgetInstancesEmpty(widgets[1..], files, classes);
      assert forall i :: 1 <= i < |widgets| ==> widgets[i] == widgets[1..][i - 1];
    }
  }

  /** Once populated, `instances` never changes again: `instantiate` is idempotent from then on. */
  lemma InstantiatedIdempotent(current: seq<WidgetInstance>, widgets: PhpVal, files: set<string>, classes: map<string, ClassInfo>)
    requires current != []
    ensures Instantiated(current, widgets, files, classes) == current
    ensures InstantiateLoads(current, widgets, [BaseWidgetFile, BaseSkinFile], files) == {}
  {
  }

  /** The editor script is empty without instances, and otherwise wraps the handler strings, one per line, in the fixed frame. */
  lemma EditorJsStringShape(instances: seq<WidgetInstance>)
    ensures instances == [] ==> EditorJsString(instances) == ""
    ensures instances != [] ==>
      |EditorJsString(instances)| >= |EditorJsPrefix| + |EditorJsSuffix| &&
      EditorJsString(instances)[..|EditorJsPrefix|] == EditorJsPrefix &&
      EditorJsString(instances)[|EditorJsString(instances)| - |EditorJsSuffix|..] == EditorJsSuffix &&
      EditorJsString(instances)[|EditorJsPrefix|..|EditorJsString(instances)| - |EditorJsSuffix|] == Text.Join("\n", HandlerStrings(instances))
  {
    if instances != [] {
      var body := Text.Join("\n", HandlerStrings(instances));
      var r := EditorJsPrefix + body + EditorJsSuffix;
      assert r[..|EditorJsPrefix|] == EditorJsPrefix;
      assert r[|r| - |EditorJsSuffix|..] == EditorJsSuffix;
      assert r[|EditorJsPrefix|..|r| - |EditorJsSuffix|] == body;
    }
  }

  /** Instances without an editor handler add nothing to the script's body. */
  lemma {:induction false} HandlerStringsOnlyProviders(instances: seq<WidgetInstance>)
    ensures forall js :: js in HandlerStrings(instances) <==> exists w :: w in instances && w.info.editorJs == Some(js)
    ensures |HandlerStrings(instances)| <= |instances|
  {
    if instances != [] {
      HandlerStringsOnlyProviders(instances[1..]);
      assert instances == [instances[0]] + instances[1..];
    }
  }

  class Widgets {
    const base: BaseManager
    /** `$this->widgets`, after the `widgets` filter. */
    var widgets: PhpVal
    /** `$this->instances`: the widget objects, once created. */
    var instances: seq<WidgetInstance>

    constructor (args: PhpVal, strings: PhpVal)
      ensures widgets == PArr([]) && instances == []
      ensures base.args == args && base.strings == strings && base.requireFiles == [BaseWidgetFile, BaseSkinFile]
      ensures fresh(base)
    {
      base := new BaseManager(args, strings, [BaseWidgetFile, BaseSkinFile]);
      widgets := PArr([]);
      instances := [];
    }

    /** `apply_filters()`: the `widgets` filter replaces the list with whatever it returns. */
    method ApplyWidgetsFilter(host: Host, filtered: PhpVal)
      modifies this, host
      ensures widgets == filtered && instances == old(instances)
      ensures host.log == old(host.log) + [Call.ApplyFilters(WidgetsFilter)] && host.required == old(host.required)
    {
      host.Record(Call.ApplyFilters(WidgetsFilter));
      widgets := filtered;
    }

    /**
     * `init($managers)`, inherited from the base manager: `apply_filters`,
     * which this class overrides, runs first, then `add_managers`, whose
     * `$this` is this widgets manager, so this manager is never stored.
     */
    method Init(host: Host, filtered: PhpVal, input: seq<ManagerEntry>)
      modifies this, base, host
      ensures widgets == filtered && instances == old(instances)
      ensures host.log == old(host.log) + [Call.ApplyFilters(WidgetsFilter)] && host.required == old(host.required)
      ensures base.steps == old(base.steps) + [ApplyFiltersStep, AddManagersStep]
      ensures base.managers == Some(Added(old(base.managers).GetOr(map[]), input, this))
      ensures base.args == old(base.args) && base.strings == old(base.strings) && base.properties == old(base.properties)
      ensures (forall k :: k in old(base.managers).GetOr(map[]) ==> old(base.managers).GetOr(map[])[k] != this) ==>
        forall k :: k in base.managers.value ==> base.managers.value[k] != this
    {
      ApplyWidgetsFilter(host, filtered);
      base.Init(input, this);
      AddedProperties(old(base.managers).GetOr(map[]), input, this);
    }

    /**
     * `instantiate()`: nothing once `instances` is populated; otherwise the
     * manager's own files are loaded, then each usable entry's file, and an
     * instance is appended for each entry whose class exists.
     */
    method Instantiate(host: Host)
      modifies this`instances, host
      ensures instances == Instantiated(old(instances), widgets, host.files, host.classes)
      ensures host.required == old(host.required) + InstantiateLoads(old(instances), widgets, base.requireFiles, host.files)
      ensures host.log == old(host.log)
    {
      if instances != [] {
        return;
      }
      base.RequireFiles(host);
      if !IsNonEmptyArray(widgets) {
        return;
      }
      InstantiateAll(host, ValuesOf(widgets.entries));
    }

    /** The loop of `instantiate` over the widget entries. */
    method InstantiateAll(host: Host, all: seq<PhpVal>)
      modifies this`instances, host
      ensures instances == old(instances) + WidgetInstances(all, host.files, host.classes)
      ensures host.required == old(host.required) + (set f | f in WidgetFiles(all, host.files))
      ensures host.log == old(host.log)
    {
      var i := 0;
      while i < |all|
        invariant 0 <= i <= |all|
        invariant instances == old(instances) + WidgetInstances(all[..i], host.files, host.classes)
        invariant host.required == old(host.required) + (set f | f in WidgetFiles(all[..i], host.files))
        invariant host.log == old(host.log)
      {
        assert all[..i + 1] == all[..i] + [all[i]];
        WidgetInstancesAppend(all[..i], [all[i]], host.files, host.classes);
        ConcatAssoc(old(instances), WidgetInstances(all[..i], host.files, host.classes), WidgetInstances([all[i]], host.files, host.classes));
        WidgetFilesAppend(all[..i], [all[i]], host.files);
        InstantiateEntry(host, all[i]);
        i := i + 1;
      }
      assert all[..i] == all;
    }

    /** The body of `instantiate`'s loop for one entry. */
    method InstantiateEntry(host: Host, widget: PhpVal)
      modifies this`instances, host
      ensures instances == old(instances) + WidgetInstances([widget], host.files, host.classes)
      ensures host.required == old(host.required) + (set f | f in WidgetFiles([widget], host.files))
      ensures host.log == old(host.log)
    {
      assert [widget][1..] == [];
      var file := StringAt(widget, "file");
      var cls := StringAt(widget, "class");
      if file.None? || file.value !in host.files || cls.None? {
        assert WidgetFiles([widget], host.files) == [];
        return;
      }
      assert WidgetFiles([widget], host.files) == [file.value];
      assert (set f | f in WidgetFiles([widget], host.files)) == {file.value};
      host.RequireIfExists(file.value);
      if cls.value in host.classes {
        instances := instances + [WidgetInstance(cls.value, host.classes[cls.value])];
      }
    }

    /** `register($widgets_manager)`: after `instantiate()`, each instance is registered once, in order. */
    method Register(host: Host)
      modifies this`instances, host
      ensures instances == Instantiated(old(instances), widgets, host.files, host.classes)
      ensures host.log == old(host.log) + RegisterCalls(instances)
      ensures host.required == old(host.required) + InstantiateLoads(old(instances), widgets, base.requireFiles, host.files)
    {
      Instantiate(host);
      if instances == [] {
        ConcatEmpty(old(host.log));
        return;
      }
      RegisterEach(host);
      host.Record(DoAction(WidgetsRegisteredAction));
      ConcatAssoc(old(host.log), RegisterWidgetCalls(instances), [DoAction(WidgetsRegisteredAction)]);
    }

    /** The loop of `register`: one `register` call per instance, in order. */
    method RegisterEach(host: Host)
      modifies host
      ensures host.log == old(host.log) + RegisterWidgetCalls(instances)
      ensures host.required == old(host.required)
    {
      var i := 0;
      while i < |instances|
        invariant 0 <= i <= |instances|
        invariant host.log == old(host.log) + RegisterWidgetCalls(instances[..i])
        invariant host.required == old(host.required)
      {
        assert instances[..i + 1] == instances[..i] + [instances[i]];
        RegisterWidgetCallsAppend(instances[..i], [instances[i]]);
        ConcatAssoc(old(host.log), RegisterWidgetCalls(instances[..i]), RegisterWidgetCalls([instances[i]]));
        host.Record(RegisterWidget(instances[i].cls));
        i := i + 1;
      }
      assert instances[..i] == instances;
    }

    /** `add_init_actions()`: after `instantiate()`, `add_init_action()` on each instance that has it, in order. */
    method AddInitActions(host: Host)
      modifies this`instances, host
      ensures instances == Instantiated(old(instances), widgets, host.files, host.classes)
      ensures host.log == old(host.log) + InitActionCalls(instances)
      ensures host.required == old(host.required) + InstantiateLoads(old(instances), widgets, base.requireFiles, host.files)
    {
      Instantiate(host);
      var i := 0;
      while i < |instances|
        invariant 0 <= i <= |instances|
        invariant host.log == old(host.log) + InitActionCalls(instances[..i])
        invariant instances == Instantiated(old(instances), widgets, host.files, host.classes)
        invariant host.required == old(host.required) + InstantiateLoads(old(instances), widgets, base.requireFiles, host.files)
      {
        assert instances[..i + 1] == instances[..i] + [instances[i]];
        InitActionCallsAppend(instances[..i], [instances[i]]);
        ConcatAssoc(old(host.log), InitActionCalls(instances[..i]), InitActionCalls([instances[i]]));
        assert [instances[i]][1..] == [];
        if instances[i].info.hasAddInitAction {
          host.Record(InitAction(instances[i].cls));
        }
        i := i + 1;
      }
      assert instances[..i] == instances;
    }

    /** `get_elementor_editor_js_string()`: after `instantiate()`, the editor script for the instances. */
    method GetElementorEditorJsString(host: Host) returns (js: string)
      modifies this`instances, host
      ensures instances == Instantiated(old(instances), widgets, host.files, host.classes)
      ensures js == EditorJsString(instances)
      ensures host.log == old(host.log)
      ensures host.required == old(host.required) + InstantiateLoads(old(instances), widgets, base.requireFiles, host.files)
    {
      Instantiate(host);
      if instances == [] {
        return "";
      }
      var handlers: seq<string> := [];
      var i := 0;
      while i < |instances|
        invariant 0 <= i <= |instances|
        invariant handlers == HandlerStrings(instances[..i])
        invariant host.log == old(host.log)
        invariant host.required == old(host.required) + InstantiateLoads(old(instances), widgets, base.requireFiles, host.files)
        invariant instances == Instantiated(old(instances), widgets, host.files, host.classes)
      {
        assert instances[..i + 1] == instances[..i] + [instances[i]];
        HandlerStringsAppend(instances[..i], [instances[i]]);
        assert [instances[i]][1..] == [];
        if instances[i].info.editorJs.Some? {
          handlers := handlers + [instances[i].info.editorJs.value];
        }
        i := i + 1;
      }
      assert instances[..i] == instances;
      js := EditorJsPrefix + Text.Join("\n", handlers) + EditorJsSuffix;
    }
  }
}
