/**
 * `Widgets\BaseWidget`, the base class of the plugin's Elementor widgets:
 * the per-class instance registry, option lookup with size extraction,
 * the repeater controls built from the widget's static field set, and the
 * order of the control registrars and of the hooks a widget adds.
 */
module BaseWidget {
  import opened Wrappers
  import opened PhpValues
  import opened Host

  /** The default `$data_static_fields`: every field but `date`. */
  const DefaultStaticFields: seq<PhpVal> :=
    [PStr("title"), PStr("category"), PStr("year"), PStr("description"),
     PStr("link"), PStr("image"), PStr("secondary_image"), PStr("video")]

  /**
   * `in_array($name, $fields)` with PHP 8's loose `==`, for a name that is
   * a non-empty, non-numeric string: it equals only the same string and
   * `true` (an integer is compared with it as a string, `null` as `""`).
   */
  predicate InArray(name: string, fields: seq<PhpVal>) {
    PStr(name) in fields || PBool(true) in fields
  }

  /** A repeater control, as far as its name and Elementor control type. */
  datatype Control = Control(name: string, controlType: string)

  /**
   * The nine controls `get_static_fields_repeater_controls` may add, in the
   * order it tries them (Elementor's `TEXT`, `DATE_TIME`, `TEXTAREA`, `URL`
   * and `MEDIA` control types).
   */
  const StaticFieldControls: seq<Control> :=
    [TitleControl, DateControl, CategoryControl, YearControl, DescriptionControl,
     LinkControl, ImageControl, SecondaryImageControl, VideoControl]

  const TitleControl := Control("title", "text")
  const DateControl := Control("date", "date_time")
  const CategoryControl := Control("category", "text")
  const YearControl := Control("year", "text")
  const DescriptionControl := Control("description", "textarea")
  const LinkControl := Control("link", "url")
  const ImageControl := Control("image", "media")
  const SecondaryImageControl := Control("secondary_image", "media")
  const VideoControl := Control("video", "media")

  /** The control, when its name is in the field set. */
  function Pick(fields: seq<PhpVal>, c: Control): seq<Control> {
    if InArray(c.name, fields) then [c] else []
  }

  /** The controls of `table` whose name is in the field set, in table order. */
  function Selected(fields: seq<PhpVal>, table: seq<Control>): seq<Control> {
    if table == [] then []
    else Pick(fields, table[0]) + Selected(fields, table[1..])
  }

  /** The controls the repeater holds for a field set. */
  function StaticFieldsControls(fields: seq<PhpVal>): seq<Control> {
    Selected(fields, StaticFieldControls)
  }

  /** `a` is `b` with some elements left out, the rest in the same order. */
  predicate Sublist<T(==)>(a: seq<T>, b: seq<T>)
    decreases |b|
  {
    if a == [] then true
    else if b == [] then false
    else (a[0] == b[0] && Sublist(a[1..], b[1..])) || Sublist(a, b[1..])
  }

  /** A control is selected exactly when it is in the table and its name is in the field set. */
  lemma {:induction false} SelectedMembers(fields: seq<PhpVal>, table: seq<Control>)
    ensures forall c :: c in Selected(fields, table) <==> c in table && InArray(c.name, fields)
  {
    if table != [] {
      SelectedMembers(fields, table[1..]);
      assert forall c :: c in table <==> c == table[0] || c in table[1..];
    }
  }

  /** The selection keeps the table's order. */
  lemma {:induction false} SelectedIsSublist(fields: seq<PhpVal>, table: seq<Control>)
    ensures Sublist(Selected(fields, table), table)
  {
    if table != [] {
      SelectedIsSublist(fields, table[1..]);
      var rest := Selected(fields, table[1..]);
      if InArray(table[0].name, fields) {
        assert Selected(fields, table) == [table[0]] + rest;
        assert ([table[0]] + rest)[1..] == rest;
      } else {
        assert Selected(fields, table) == rest;
        if rest != [] {
          assert Sublist(rest, table);
        }
      }
    }
  }

  /**
   * `get_static_fields_repeater_controls` adds a control exactly when its
   * name is in the field set, in the fixed order title, date, category,
   * year, description, link, image, secondary_image, video.
   */
  lemma StaticFieldsControlsSpec(fields: seq<PhpVal>)
    ensures forall c :: c in StaticFieldsControls(fields) <==> c in StaticFieldControls && InArray(c.name, fields)
    ensures Sublist(StaticFieldsControls(fields), StaticFieldControls)
  {
    SelectedMembers(fields, StaticFieldControls);
    SelectedIsSublist(fields, StaticFieldControls);
  }

  /** The default field set gives every control but `date`. */
  lemma DefaultStaticFieldsControls()
    ensures StaticFieldsControls(DefaultStaticFields) == [StaticFieldControls[0]] + StaticFieldControls[2..]
    ensures DateControl !in StaticFieldsControls(DefaultStaticFields)
  {
    var t := StaticFieldControls;
    var f := DefaultStaticFields;
    var head, rest := [t[0], t[1]], t[2..];
    DefaultFieldsLackDate();
    DefaultFieldsSelectRest();
    assert t == head + rest;
    SelectedAppend(f, head, rest);
    assert InArray(t[0].name, f) by { assert f[0] == PStr(t[0].name); }
    assert Selected(f, head) == [t[0]] by {
      assert head[1..] == [t[1]] && [t[1]][1..] == [];
      assert Selected(f, [t[1]]) == [];
    }
    SelectedMembers(f, t);
  }

  lemma DefaultFieldsLackDate()
    ensures !InArray(DateControl.name, DefaultStaticFields)
  {
  }

  lemma DefaultFieldsSelectRest()
    ensures Selected(DefaultStaticFields, StaticFieldControls[2..]) == StaticFieldControls[2..]
  {
    DefaultFieldsNameRest();
    SelectedAll(DefaultStaticFields, StaticFieldControls[2..]);
  }

  lemma DefaultFieldsNameRest()
    ensures forall i :: 2 <= i < |StaticFieldControls| ==> InArray(StaticFieldControls[i].name, DefaultStaticFields)
  {
    var f := DefaultStaticFields;
    assert f[1] == PStr(CategoryControl.name) && f[2] == PStr(YearControl.name) && f[3] == PStr(DescriptionControl.name);
    assert f[4] == PStr(LinkControl.name) && f[5] == PStr(ImageControl.name) && f[6] == PStr(SecondaryImageControl.name);
    assert f[7] == PStr(VideoControl.name);
  }

  /** When every name of the table is in the field set, nothing is left out. */
  lemma {:induction false} SelectedAll(fields: seq<PhpVal>, table: seq<Control>)
    requires forall i :: 0 <= i < |table| ==> InArray(table[i].name, fields)
    ensures Selected(fields, table) == table
  {
    if table != [] {
      assert forall i :: 0 <= i < |table[1..]| ==> table[1..][i] == table[i + 1];
      SelectedAll(fields, table[1..]);
    }
  }

  /** Loose comparison: a `true` anywhere in the field set selects every control. */
  lemma TrueSelectsAll(fields: seq<PhpVal>)
    requires PBool(true) in fields
    ensures StaticFieldsControls(fields) == StaticFieldControls
  {
    SelectedAll(fields, StaticFieldControls);
  }

  /** Elementor's `Repeater`, as far as the controls added to it. */
  class Repeater {
    var controls: seq<Control>

    constructor ()
      ensures controls == []
    {
      controls := [];
    }

    /** `add_control($name, $args)`. */
    method AddControl(c: Control)
      modifies this
      ensures controls == old(controls) + [c]
    {
      controls := controls + [c];
    }
  }

  /** What the registrars of `register_controls` are called with, in order. */
  datatype RegisterStep = RegisterContent(tab: string) | RegisterSettings(tab: string) | RegisterLayout(tab: string) | RegisterStyle(tab: string)

  /** Elementor's `TAB_CONTENT`, `TAB_SETTINGS`, `TAB_LAYOUT` and `TAB_STYLE`. */
  const RegisterControlsSteps: seq<RegisterStep> :=
    [RegisterContent("content"), RegisterSettings("settings"), RegisterLayout("layout"), RegisterStyle("style")]

  /** The hooks of `add_preloads()` and their callbacks, in order. */
  const PreloadFilters: seq<Call> :=
    [AddFilter("arts/optimizer/preloads/assets_map", "add_preload_assets"),
     AddFilter("arts/optimizer/preloads/modules_map", "add_preload_modules"),
     AddFilter("arts/optimizer/preloads/images_map", "add_preload_images"),
     AddFilter("arts/optimizer/preloads/prefetch_map", "add_prefetch")]

  /** The hook of `add_wpml_compatibility()`. */
  const WpmlFilter: Call := AddFilter("wpml_elementor_widgets_to_translate", "filter_wpml_widgets_to_translate")

  /**
   * `get_option_value($option, $prefix, $return_size)` over the widget's
   * settings for display: `false` when the key `prefix + option` is absent;
   * the value's `size` when `return_size` is truthy and the value is an
   * array with a `size` key; the value itself otherwise.
   */
  function GetOptionValue(settings: seq<Pair>, option: string, prefix: string, returnSize: PhpVal): (r: PhpVal)
    ensures !KeyExists(settings, StringKey(prefix + option)) ==> r == PBool(false)
  {
    var k := StringKey(prefix + option);
    if KeyExists(settings, k) then
      var v := Index(settings, k);
      if Truthy(returnSize) && v.PArr? && KeyExists(v.entries, StrKey("size")) then Index(v.entries, StrKey("size"))
      else v
    else PBool(false)
  }

  /**
   * An option set on the settings reads back: its value, or the value's
   * `size` when sizes are asked for and it has one; with sizes not asked
   * for, always the whole value.
   */
  lemma GetOptionValueAfterAssign(settings: seq<Pair>, option: string, prefix: string, returnSize: PhpVal, v: PhpVal)
    ensures var r := GetOptionValue(Assign(settings, StringKey(prefix + option), v), option, prefix, returnSize);
      (Truthy(returnSize) && v.PArr? && KeyExists(v.entries, StrKey("size")) ==> Some(r) == Lookup(v.entries, StrKey("size"))) &&
      (!(Truthy(returnSize) && v.PArr? && KeyExists(v.entries, StrKey("size"))) ==> r == v)
  {
  }

  /** Settings under other keys do not change an option's value. */
  lemma GetOptionValueOtherKeys(settings: seq<Pair>, option: string, prefix: string, returnSize: PhpVal, k: Key, v: PhpVal)
    requires k != StringKey(prefix + option)
    ensures GetOptionValue(Assign(settings, k, v), option, prefix, returnSize) == GetOptionValue(settings, option, prefix, returnSize)
  {
    assert Lookup(Assign(settings, k, v), StringKey(prefix + option)) == Lookup(settings, StringKey(prefix + option));
  }

  /** An option that is present is `false` only when its value (or its size) is `false`. */
  lemma GetOptionValueFalse(settings: seq<Pair>, option: string, prefix: string, returnSize: PhpVal)
    requires KeyExists(settings, StringKey(prefix + option))
    ensures var v := Index(settings, StringKey(prefix + option));
      GetOptionValue(settings, option, prefix, returnSize) == PBool(false) ==>
        v == PBool(false) || (v.PArr? && Lookup(v.entries, StrKey("size")) == Some(PBool(false)))
  {
  }

  class Widget {
    /** `static::class`. */
    const cls: string
    /** `$data_static_fields`, as the concrete widget class declares it. */
    const dataStaticFields: seq<PhpVal>
    /** The registrars `register_controls` has called so far. */
    var steps: seq<RegisterStep>

    constructor (cls: string, dataStaticFields: seq<PhpVal>)
      ensures this.cls == cls && this.dataStaticFields == dataStaticFields && steps == []
    {
      this.cls := cls;
      this.dataStaticFields := dataStaticFields;
      steps := [];
    }

    /** `register_controls()`: content, settings, layout and style, in that order. */
    method RegisterControls()
      modifies this
      ensures steps == old(steps) + RegisterControlsSteps
    {
      steps := steps + [RegisterContent("content")];
      steps := steps + [RegisterSettings("settings")];
      steps := steps + [RegisterLayout("layout")];
      steps := steps + [RegisterStyle("style")];
    }

    /** `get_static_fields_repeater_controls()`. */
    method GetStaticFieldsRepeaterControls() returns (controls: seq<Control>)
      ensures controls == StaticFieldsControls(dataStaticFields)
    {
      var repeater := new Repeater();
      var fields := dataStaticFields;
      assert StaticFieldControls[..0] == [];
      AddIfInFieldSet(repeater, fields, 0, TitleControl);
      AddIfInFieldSet(repeater, fields, 1, DateControl);
      AddIfInFieldSet(repeater, fields, 2, CategoryControl);
      AddIfInFieldSet(repeater, fields, 3, YearControl);
      AddIfInFieldSet(repeater, fields, 4, DescriptionControl);
      AddIfInFieldSet(repeater, fields, 5, LinkControl);
      AddIfInFieldSet(repeater, fields, 6, ImageControl);
      AddIfInFieldSet(repeater, fields, 7, SecondaryImageControl);
      AddIfInFieldSet(repeater, fields, 8, VideoControl);
      SelectedWholeTable(fields);
      controls := repeater.controls;
    }

    /** `add_actions()`: `add_preloads()`, then the (empty) custom actions. */
    method AddActions(host: Host)
      modifies host
      ensures host.log == old(host.log) + PreloadFilters
      ensures host.required == old(host.required)
    {
      host.Record(PreloadFilters[0]);
      host.Record(PreloadFilters[1]);
      host.Record(PreloadFilters[2]);
      host.Record(PreloadFilters[3]);
    }

    /** `add_init_action()`: `add_wpml_compatibility()`, then the (empty) custom init actions. */
    method AddInitAction(host: Host)
      modifies host
      ensures host.log == old(host.log) + [WpmlFilter]
      ensures host.required == old(host.required)
    {
      host.Record(WpmlFilter);
    }
  }

  /** The selection distributes over concatenation. */
  lemma {:induction false} SelectedAppend(fields: seq<PhpVal>, a: seq<Control>, b: seq<Control>)
    ensures Selected(fields, a + b) == Selected(fields, a) + Selected(fields, b)
  {
    if a != [] {
      assert (a + b)[0] == a[0] && (a + b)[1..] == a[1..] + b;
      SelectedAppend(fields, a[1..], b);
      var p := Pick(fields, a[0]);
      calc {
        Selected(fields, a + b);
        p + Selected(fields, a[1..] + b);
        p + (Selected(fields, a[1..]) + Selected(fields, b));
        (p + Selected(fields, a[1..])) + Selected(fields, b);
        Selected(fields, a) + Selected(fields, b);
      }
    } else {
      assert a + b == b;
    }
  }

  /** Trying the next control of the table adds it exactly when it is selected. */
  lemma SelectedNext(fields: seq<PhpVal>, k: nat)
    requires k < |StaticFieldControls|
    ensures Selected(fields, StaticFieldControls[..k + 1]) ==
      Selected(fields, StaticFieldControls[..k]) + Pick(fields, StaticFieldControls[k])
  {
    var t := StaticFieldControls;
    assert t[..k + 1] == t[..k] + [t[k]];
    SelectedAppend(fields, t[..k], [t[k]]);
  }

  /** One `if (in_array(name, $fields_set)) $repeater->add_control(...)` block: the `k`-th control of the table. */
  lemma SelectedWholeTable(fields: seq<PhpVal>)
    ensures Selected(fields, StaticFieldControls[..9]) == StaticFieldsControls(fields)
  {
    assert StaticFieldControls[..9] == StaticFieldControls;
  }

  method AddIfInFieldSet(repeater: Repeater, fields: seq<PhpVal>, k: nat, c: Control)
    requires k < |StaticFieldControls| && StaticFieldControls[k] == c
    requires repeater.controls == Selected(fields, StaticFieldControls[..k])
    modifies repeater
    ensures repeater.controls == Selected(fields, StaticFieldControls[..k + 1])
  {
    if InArray(c.name, fields) {
      repeater.AddControl(c);
    }
    SelectedNext(fields, k);
  }

  /** The static registry of `BaseWidget`: one instance per concrete class, and `$allowed_html`. */
  class Registry {
    var instances: map<string, Widget>
    var allowedHtml: PhpVal

    /** `$allowed_html` is declared as an empty array. */
    constructor ()
      ensures instances == map[] && allowedHtml == PArr([])
    {
      instances := map[];
      allowedHtml := PArr([]);
    }

    /**
     * `instance()` called on `cls`: the widget is built on the first call
     * only and the same object is returned afterwards; `$allowed_html`
     * takes `wp_kses_allowed_html('post')` (here `ksesPost`) only when null.
     */
    method Instance(cls: string, dataStaticFields: seq<PhpVal>, ksesPost: PhpVal) returns (w: Widget)
      modifies this
      ensures cls in old(instances) ==> w == old(instances)[cls]
      ensures cls !in old(instances) ==> fresh(w) && w.cls == cls && w.dataStaticFields == dataStaticFields && w.steps == []
      ensures instances == old(instances)[cls := w]
      ensures allowedHtml == if old(allowedHtml) == PNull then ksesPost else old(allowedHtml)
    {
      if cls !in instances {
        var created := new Widget(cls, dataStaticFields);
        instances := instances[cls := created];
      }
      if allowedHtml == PNull {
        allowedHtml := ksesPost;
      }
      w := instances[cls];
    }
  }

  /**
   * Two `instance()` calls on a fresh registry return the same widget, and
   * `$allowed_html`, never null, stays the empty array.
   */
  method InstanceTwice(cls: string, fields: seq<PhpVal>, ksesPost: PhpVal) returns (first: Widget, second: Widget, allowedHtml: PhpVal)
    ensures first == second
    ensures allowedHtml == PArr([])
  {
    var registry := new Registry();
    first := registry.Instance(cls, fields, ksesPost);
    second := registry.Instance(cls, fields, ksesPost);
    allowedHtml := registry.allowedHtml;
  }
}
