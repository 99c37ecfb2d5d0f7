/**
 * `BaseTab`, the base class of the plugin's Elementor site-settings tabs:
 * the value converters between the Elementor editor and the WordPress
 * Customizer, the filter that picks the tab's synchronised controls, and
 * the order `register_controls` runs its steps in.
 */
module BaseTab {
  import opened Wrappers
  import opened PhpValues

  /** `BaseTab::TAB_ID`, which a concrete tab overrides. */
  const DefaultTabId := "arts-elementor-extension-custom-tab"

  /** The values of Elementor's `Controls_Manager::SWITCHER` and `::SLIDER`. */
  const Switcher := "switcher"
  const Slider := "slider"

  /** `SYNC_CONTROL_TYPES`: the Elementor control types whose values are synchronised. */
  const SyncControlTypes: seq<string> := ["text", "textarea", "number", "button", "hidden", Slider, Switcher, "select"]

  /** `filter_value_elementor_to_customizer($val)`. */
  function ElementorToCustomizer(val: PhpVal): PhpVal {
    if val == PStr("yes") then PBool(true)
    else if val == PStr("") then PBool(false)
    else if val.PArr? && KeyExists(val.entries, StrKey("size")) then Index(val.entries, StrKey("size"))
    else val
  }

  /** `filter_value_from_customizer_to_elementor($val, $type)`. */
  function CustomizerToElementor(val: PhpVal, controlType: PhpVal): PhpVal {
    if controlType == PStr(Switcher) && val == PBool(true) then PStr("yes")
    else if controlType == PStr(Switcher) && val == PBool(false) then PStr("")
    else val
  }

  /**
   * Towards the Customizer: a switcher's `'yes'` and `''` become booleans, a
   * slider's array becomes its `size`, every other value passes unchanged.
   */
  lemma ElementorToCustomizerCases(val: PhpVal)
    ensures val == PStr("yes") ==> ElementorToCustomizer(val) == PBool(true)
    ensures val == PStr("") ==> ElementorToCustomizer(val) == PBool(false)
    ensures val.PArr? && KeyExists(val.entries, StrKey("size")) ==> ElementorToCustomizer(val) == Lookup(val.entries, StrKey("size")).value
    ensures val != PStr("yes") && val != PStr("") && !(val.PArr? && KeyExists(val.entries, StrKey("size"))) ==>
      ElementorToCustomizer(val) == val
  {
  }

  /** Towards the editor, only the switcher's booleans change; any other type or value passes unchanged. */
  lemma CustomizerToElementorIdentity(val: PhpVal, controlType: PhpVal)
    ensures controlType != PStr(Switcher) ==> CustomizerToElementor(val, controlType) == val
    ensures !val.PBool? ==> CustomizerToElementor(val, controlType) == val
  {
  }

  /** A switcher's editor values survive a round trip through the Customizer. */
  lemma SwitcherEditorRoundTrip(val: PhpVal)
    requires val == PStr("yes") || val == PStr("")
    ensures CustomizerToElementor(ElementorToCustomizer(val), PStr(Switcher)) == val
  {
  }

  /** A switcher's Customizer values survive a round trip through the editor. */
  lemma SwitcherCustomizerRoundTrip(b: bool)
    ensures ElementorToCustomizer(CustomizerToElementor(PBool(b), PStr(Switcher))) == PBool(b)
  {
  }

  /** A slider's size, unit aside, survives a round trip through the Customizer for any control type. */
  lemma SliderToCustomizer(size: PhpVal, unit: PhpVal, controlType: PhpVal)
    requires !size.PBool?
    ensures ElementorToCustomizer(PArr([Pair(StrKey("unit"), unit), Pair(StrKey("size"), size)])) == size
    ensures CustomizerToElementor(ElementorToCustomizer(PArr([Pair(StrKey("unit"), unit), Pair(StrKey("size"), size)])), controlType) == size
  {
    var es := [Pair(StrKey("unit"), unit), Pair(StrKey("size"), size)];
    assert Position(es, StrKey("size")) == Some(1);
  }

  /** The condition `get_current_tab_controls` keeps a control by (strict comparisons). */
  predicate IsCurrentTabControl(control: PhpVal, tabId: string) {
    IsSetOn(control, "tab") &&
    Index(control.entries, StrKey("tab")) == PStr(tabId) &&
    Index(control.entries, StrKey("type")).PStr? && Index(control.entries, StrKey("type")).s in SyncControlTypes
  }

  /** The controls of the tab, in order. */
  function CurrentTabControls(controls: seq<PhpVal>, tabId: string): seq<PhpVal> {
    if controls == [] then []
    else
      (if IsCurrentTabControl(controls[0], tabId) then [controls[0]] else [])
      + CurrentTabControls(controls[1..], tabId)
  }

  lemma {:induction false} CurrentTabControlsAppend(xs: seq<PhpVal>, ys: seq<PhpVal>, tabId: string)
    ensures CurrentTabControls(xs + ys, tabId) == CurrentTabControls(xs, tabId) + CurrentTabControls(ys, tabId)
  {
    if xs == [] {
      assert xs + ys == ys;
    } else {
      var zs := xs + ys;
      assert zs[0] == xs[0] && zs[1..] == xs[1..] + ys;
      CurrentTabControlsAppend(xs[1..], ys, tabId);
      ConcatAssoc(if IsCurrentTabControl(xs[0], tabId) then [xs[0]] else [], CurrentTabControls(xs[1..], tabId), CurrentTabControls(ys, tabId));
    }
  }

  /**
   * The filter keeps exactly the controls of this tab whose type is
   * synchronised, and keeps them in their original order.
   */
  lemma CurrentTabControlsIsFilter(controls: seq<PhpVal>, tabId: string)
    ensures forall c :: c in CurrentTabControls(controls, tabId) <==> c in controls && IsCurrentTabControl(c, tabId)
    ensures |CurrentTabControls(controls, tabId)| <= |controls|
    ensures (forall c :: c in controls ==> IsCurrentTabControl(c, tabId)) ==> CurrentTabControls(controls, tabId) == controls
  {
    CurrentTabControlsMembers(controls, tabId);
    if forall c :: c in controls ==> IsCurrentTabControl(c, tabId) {
      CurrentTabControlsAllPass(controls, tabId);
    }
  }

  lemma {:induction false} CurrentTabControlsMembers(controls: seq<PhpVal>, tabId: string)
    ensures forall c :: c in CurrentTabControls(controls, tabId) <==> c in controls && IsCurrentTabControl(c, tabId)
    ensures |CurrentTabControls(controls, tabId)| <= |controls|
  {
    if controls != [] {
      CurrentTabControlsMembers(controls[1..], tabId);
      assert controls == [controls[0]] + controls[1..];
    }
  }

  lemma {:induction false} CurrentTabControlsAllPass(controls: seq<PhpVal>, tabId: string)
    requires forall i :: 0 <= i < |controls| ==> IsCurrentTabControl(controls[i], tabId)
    ensures CurrentTabControls(controls, tabId) == controls
  {
    if controls != [] {
      var rest := controls[1..];
      assert forall i :: 0 <= i < |rest| ==> rest[i] == controls[i + 1];
      CurrentTabControlsAllPass(rest, tabId);
      assert controls == [controls[0]] + rest;
    }
  }

  /** One step of `register_controls`. */
  datatype TabStep = BeforeRegisterTab | RegisterTab | RegisterTabControls | AfterRegisterTab

  /** A settings tab of the Elementor kit. */
  class Tab {
    /** `static::TAB_ID` of the concrete tab class. */
    const tabId: string
    /** The steps of `register_controls` run so far, in order. */
    var steps: seq<TabStep>

    constructor (tabId: string)
      ensures this.tabId == tabId && steps == []
    {
      this.tabId := tabId;
      steps := [];
    }

    /** `get_id()`: the concrete class's `TAB_ID` (late static binding). */
    function GetId(): (id: string)
      ensures id == tabId
    {
      tabId
    }

    /** `register_controls()`: the four steps, in order. */
    method RegisterControls()
      modifies this
      ensures steps == old(steps) + [BeforeRegisterTab, RegisterTab, RegisterTabControls, AfterRegisterTab]
    {
      steps := steps + [BeforeRegisterTab];
      steps := steps + [RegisterTab];
      steps := steps + [RegisterTabControls];
      steps := steps + [AfterRegisterTab];
    }

    /** `get_current_tab_controls()` over the kit's controls, in the order `get_controls()` lists them. */
    method GetCurrentTabControls(controls: seq<PhpVal>) returns (current: seq<PhpVal>)
      ensures current == CurrentTabControls(controls, GetId())
      ensures forall c :: c in current <==> c in controls && IsCurrentTabControl(c, tabId)
    {
      current := [];
      var i := 0;
      while i < |controls|
        invariant 0 <= i <= |controls|
        invariant current == CurrentTabControls(controls[..i], tabId)
      {
        assert controls[..i + 1] == controls[..i] + [controls[i]];
        CurrentTabControlsAppend(controls[..i], [controls[i]], tabId);
        if IsCurrentTabControl(controls[i], tabId) {
          current := current + [controls[i]];
        }
        i := i + 1;
      }
      assert controls[..i] == controls;
      CurrentTabControlsIsFilter(controls, tabId);
    }
  }
}
