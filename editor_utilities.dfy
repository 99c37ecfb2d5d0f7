/**
 * The editor's settings-map interpreter: `processComplexValue`,
 * `convertSettings` and `getLiveSettings` of src/js/editor/utilities.js.
 *
 * A settings map is a JavaScript object whose values are mappings. A
 * mapping is a string (the Elementor setting to read), a record carrying
 * `condition`, `value` and `return_size`, or a nested group of mappings;
 * which one it is is decided at run time by inspecting its properties,
 * so the mapping tree is modelled as a plain JsVal and the inspection is
 * written out as the source does it.
 */
module EditorUtilities {
  import opened Wrappers
  import opened JsValues
  import Dedup

  /** The Elementor settings of one element: `settings[key]`. */
  type Settings = map<string, JsVal>

  /** Thrown by `mapping.value` when a sub-mapping is `null`. */
  const NullMappingError := TypeError("Cannot read properties of null (reading 'value')")
  /** Thrown by `Object.entries` on `null` or `undefined`. */
  const NullEntriesError := TypeError("Cannot convert undefined or null to object")

  // ---------------------------------------------------------------------
  // processComplexValue
  // ---------------------------------------------------------------------

  /** What a `{value, return_size}` sub-mapping with a truthy `value` yields. */
  function SizedValue(ms: seq<Prop>, settings: Settings): JsVal {
    var value := Read(settings, ToStr(Get(ms, "value")));
    if Get(ms, "return_size") == Bool(false) then
      if value.Obj? && Get(value.props, "size") != Undefined && Truthy(Get(value.props, "unit")) then
        Str(ToStr(Get(value.props, "size")) + ToStr(Get(value.props, "unit")))
      else value
    else if value.Obj? && Get(value.props, "size") != Undefined then Get(value.props, "size")
    else value
  }

  /** `processComplexValue(valueMapping, settings)`. */
  function ProcessComplexValue(valueMapping: JsVal, settings: Settings): Result<JsVal> {
    match valueMapping
    case Str(s) => Ok(Read(settings, s))
    case Obj(ps) =>
      var r :- ProcessEntries(ps, settings, []);
      Ok(Obj(r))
    case Undefined => Err(NullEntriesError)
    case Null => Err(NullEntriesError)
    case _ => Ok(Obj([]))   // Object.entries of a boolean or number is empty
  }

  /** One iteration of the `forEach`: the value stored under the entry's key, None when nothing is stored. */
  function ProcessEntry(mapping: JsVal, settings: Settings): Result<Option<JsVal>> {
    match mapping
    case Str(s) => Ok(Some(Read(settings, s)))
    case Null => Err(NullMappingError)
    case Obj(ms) =>
      if Truthy(Get(ms, "value")) then Ok(Some(SizedValue(ms, settings)))
      else
        var r :- ProcessEntries(ms, settings, []);
        Ok(Some(Obj(r)))
    case _ => Ok(None)
  }

  function ProcessEntries(ps: seq<Prop>, settings: Settings, acc: seq<Prop>): Result<seq<Prop>> {
    if ps == [] then Ok(acc)
    else
      var e :- ProcessEntry(ps[0].val, settings);
      ProcessEntries(ps[1..], settings, if e.Some? then Put(acc, ps[0].key, e.value) else acc)
  }

  // ---------------------------------------------------------------------
  // convertSettings
  // ---------------------------------------------------------------------

  /** `return_size === true` on an object value with a defined `size` yields that size. */
  function SizeIfRequested(ms: seq<Prop>, value: JsVal): JsVal {
    if Get(ms, "return_size") == Bool(true) && value.Obj? && Get(value.props, "size") != Undefined
    then Get(value.props, "size")
    else value
  }

  /** One iteration of the `forEach` in `convertSettings`: what is stored under `jsKey`, None when nothing is. */
  function ConvertEntry(settings: Settings, mapping: JsVal): Result<Option<JsVal>> {
    match mapping
    case Str(s) => Ok(if Read(settings, s) != Undefined then Some(Read(settings, s)) else None)
    case Obj(ms) =>
      if Truthy(Get(ms, "condition")) && !Truthy(Read(settings, ToStr(Get(ms, "condition")))) then
        Ok(Some(Bool(false)))
      else
        (match Find(ms, "value")
         case Some(i) =>
          (match ms[i].val
           case Str(key) => Ok(Some(SizeIfRequested(ms, Read(settings, key))))
           case Obj(vs) =>
             var r :- ProcessEntries(vs, settings, []);
             Ok(Some(Obj(r)))
           case _ => Ok(None))
         case None =>
           if Has(ms, "condition") then Ok(None)
           else
             var r :- ConvertEntries(settings, ms, []);
             Ok(Some(Obj(r))))
    case _ => Ok(None)
  }

  function ConvertEntries(settings: Settings, ps: seq<Prop>, acc: seq<Prop>): Result<seq<Prop>> {
    if ps == [] then Ok(acc)
    else
      var e :- ConvertEntry(settings, ps[0].val);
      ConvertEntries(settings, ps[1..], if e.Some? then Put(acc, ps[0].key, e.value) else acc)
  }

  /** `convertSettings(settings, settingsMap)`: the own properties of the object it returns. */
  function ConvertSettings(settings: Settings, settingsMap: seq<Prop>): Result<seq<Prop>> {
    ConvertEntries(settings, settingsMap, [])
  }

  // ---------------------------------------------------------------------
  // getLiveSettings
  // ---------------------------------------------------------------------

  /**
   * The keys `extractFromObject(obj)` pushes, in push order, as the source
   * writes it: a truthy object `value` is walked with `extractFromObject`
   * itself, not with the rules `processComplexValue` reads it by.
   */
  function ExtractKeysAsWritten(obj: JsVal): seq<JsVal> {
    match obj
    case Str(_) => [obj]
    case Obj(ps) =>
      (if Truthy(Get(ps, "condition")) then [Get(ps, "condition")] else [])
      + (match Find(ps, "value")
         case Some(i) =>
           if !Truthy(ps[i].val) then ExtractAllAsWritten(ps)
           else if ps[i].val.Str? then [ps[i].val]
           else if ps[i].val.Obj? then ExtractKeysAsWritten(ps[i].val)
           else []
         case None => ExtractAllAsWritten(ps))
    case _ => []
  }

  function ExtractAllAsWritten(ps: seq<Prop>): seq<JsVal> {
    if ps == [] then [] else ExtractKeysAsWritten(ps[0].val) + ExtractAllAsWritten(ps[1..])
  }

  /** What `getLiveSettings(settingsMap, additionalSettings)` returns as the source writes it. */
  function LiveSettingsAsWritten(settingsMap: seq<Prop>, additional: seq<JsVal>): seq<JsVal> {
    Dedup.Unique(ExtractAllAsWritten(settingsMap) + additional)
  }

  /**
   * The corrected extraction (the source's `extractFromObject` is
   * `ExtractKeysAsWritten` above): the keys of a mapping, with a truthy
   * object `value` walked by the rules `processComplexValue` reads it by: a string sub-mapping is a key, a
   * sub-mapping with a truthy `value` names the key `String(value)`, any
   * other object sub-mapping is walked in turn.
   */
  function ExtractKeys(obj: JsVal): seq<JsVal> {
    match obj
    case Str(_) => [obj]
    case Obj(ps) =>
      (if Truthy(Get(ps, "condition")) then [Get(ps, "condition")] else [])
      + (match Find(ps, "value")
         case Some(i) =>
           if !Truthy(ps[i].val) then ExtractAll(ps)
           else if ps[i].val.Str? then [ps[i].val]
           else if ps[i].val.Obj? then ExtractComplexAll(ps[i].val.props)
           else []
         case None => ExtractAll(ps))
    case _ => []
  }

  function ExtractAll(ps: seq<Prop>): seq<JsVal> {
    if ps == [] then [] else ExtractKeys(ps[0].val) + ExtractAll(ps[1..])
  }

  /** The keys a sub-mapping of a complex value reads. */
  function ExtractComplexKeys(mapping: JsVal): seq<JsVal> {
    match mapping
    case Str(_) => [mapping]
    case Obj(ms) =>
      (match Find(ms, "value")
       case Some(i) => if Truthy(ms[i].val) then [ms[i].val] else ExtractComplexAll(ms)
       case None => ExtractComplexAll(ms))
    case _ => []
  }

  function ExtractComplexAll(ps: seq<Prop>): seq<JsVal> {
    if ps == [] then [] else ExtractComplexKeys(ps[0].val) + ExtractComplexAll(ps[1..])
  }

  /** The corrected live settings: the keys the conversion reads, then the additional settings, each once. */
  function LiveSettings(settingsMap: seq<Prop>, additional: seq<JsVal>): seq<JsVal> {
    Dedup.Unique(ExtractAll(settingsMap) + additional)
  }

  /**
   * The extraction records a truthy `condition` and a truthy string `value`
   * of every record it visits, and a record with a truthy `value` is not
   * traversed beyond `condition` and `value`.
   */
  lemma ExtractRecordsConditionAndValue(ps: seq<Prop>, ps': seq<Prop>)
    ensures Truthy(Get(ps, "condition")) ==>
      Get(ps, "condition") in ExtractKeys(Obj(ps)) && Get(ps, "condition") in ExtractKeysAsWritten(Obj(ps))
    ensures Truthy(Get(ps, "value")) && Get(ps, "value").Str? ==>
      Get(ps, "value") in ExtractKeys(Obj(ps)) && Get(ps, "value") in ExtractKeysAsWritten(Obj(ps))
    ensures Truthy(Get(ps, "value")) && Get(ps, "value") == Get(ps', "value") && Get(ps, "condition") == Get(ps', "condition") ==>
      ExtractKeys(Obj(ps)) == ExtractKeys(Obj(ps')) && ExtractKeysAsWritten(Obj(ps)) == ExtractKeysAsWritten(Obj(ps'))
  {
  }

  lemma {:induction false} ExtractAllAsWrittenAppend(ps: seq<Prop>, p: Prop)
    ensures ExtractAllAsWritten(ps + [p]) == ExtractAllAsWritten(ps) + ExtractKeysAsWritten(p.val)
  {
    if ps == [] {
      assert [p][1..] == [];
      ConcatEmpty(ExtractKeysAsWritten(p.val));
    } else {
      assert (ps + [p])[0] == ps[0] && (ps + [p])[1..] == ps[1..] + [p];
      ExtractAllAsWrittenAppend(ps[1..], p);
      ConcatAssoc(ExtractKeysAsWritten(ps[0].val), ExtractAllAsWritten(ps[1..]), ExtractKeysAsWritten(p.val));
    }
  }

  /**
   * `getLiveSettings`, as the source writes it: the keys `extractFromObject`
   * pushes in traversal order, then the additional settings, each value
   * once, at its first occurrence. The corrected list is `LiveSettings`.
   */
  method GetLiveSettings(settingsMap: seq<Prop>, additional: seq<JsVal>) returns (r: seq<JsVal>)
    ensures r == LiveSettingsAsWritten(settingsMap, additional)
    ensures Dedup.NoDuplicates(r)
    ensures forall x :: x in r <==> x in ExtractAllAsWritten(settingsMap) || x in additional
    ensures r == Dedup.Unique(ExtractAllAsWritten(settingsMap)) + Dedup.UniqueFrom(additional, set x | x in ExtractAllAsWritten(settingsMap))
  {
    var keys: seq<JsVal> := [];
    var i := 0;
    while i < |settingsMap|
      invariant 0 <= i <= |settingsMap|
      invariant keys == ExtractAllAsWritten(settingsMap[..i])
    {
      assert settingsMap[..i + 1] == settingsMap[..i] + [settingsMap[i]];
      ExtractAllAsWrittenAppend(settingsMap[..i], settingsMap[i]);
      keys := keys + ExtractKeysAsWritten(settingsMap[i].val);
      i := i + 1;
    }
    assert settingsMap[..i] == settingsMap;
    r := Dedup.Deduplicate(keys + additional);
    Dedup.UniqueIsDeduplication(keys + additional);
    Dedup.UniqueAppend(keys, additional);
  }

  // ---------------------------------------------------------------------
  // What the interpreters compute, key by key
  // ---------------------------------------------------------------------

  lemma {:induction false} ProcessEntriesFrame(ps: seq<Prop>, settings: Settings, acc: seq<Prop>)
    requires ProcessEntries(ps, settings, acc).Ok?
    ensures forall i :: 0 <= i < |ps| ==> ProcessEntry(ps[i].val, settings).Ok?
    ensures var r := ProcessEntries(ps, settings, acc).value;
      forall k :: k !in Keys(ps) ==> (Has(r, k) <==> Has(acc, k)) && Get(r, k) == Get(acc, k)
  {
    if ps != [] {
      var e := ProcessEntry(ps[0].val, settings).value;
      var acc' := if e.Some? then Put(acc, ps[0].key, e.value) else acc;
      assert ProcessEntries(ps, settings, acc) == ProcessEntries(ps[1..], settings, acc');
      ProcessEntriesFrame(ps[1..], settings, acc');
      assert forall i :: 1 <= i < |ps| ==> ps[i] == ps[1..][i - 1];
    }
  }

  lemma {:induction false} ProcessEntriesKeys(ps: seq<Prop>, settings: Settings, acc: seq<Prop>)
    requires DistinctKeys(ps)
    requires ProcessEntries(ps, settings, acc).Ok?
    ensures forall i :: 0 <= i < |ps| ==> ProcessEntry(ps[i].val, settings).Ok?
    ensures var r := ProcessEntries(ps, settings, acc).value;
      forall i :: 0 <= i < |ps| ==>
        match ProcessEntry(ps[i].val, settings).value
        case Some(v) => Has(r, ps[i].key) && Get(r, ps[i].key) == v
        case None => (Has(r, ps[i].key) <==> Has(acc, ps[i].key)) && Get(r, ps[i].key) == Get(acc, ps[i].key)
    ensures var r := ProcessEntries(ps, settings, acc).value;
      forall k :: k !in Keys(ps) ==> (Has(r, k) <==> Has(acc, k)) && Get(r, k) == Get(acc, k)
  {
    ProcessEntriesFrame(ps, settings, acc);
    if ps != [] {
      var e := ProcessEntry(ps[0].val, settings).value;
      var acc' := if e.Some? then Put(acc, ps[0].key, e.value) else acc;
      assert ProcessEntries(ps, settings, acc) == ProcessEntries(ps[1..], settings, acc');
      ProcessEntriesKeys(ps[1..], settings, acc');
      ProcessEntriesFrame(ps[1..], settings, acc');
      assert ps[0].key !in Keys(ps[1..]);
      var r := ProcessEntries(ps[1..], settings, acc').value;
      forall i | 0 <= i < |ps|
        ensures match ProcessEntry(ps[i].val, settings).value
          case Some(v) => Has(r, ps[i].key) && Get(r, ps[i].key) == v
          case None => (Has(r, ps[i].key) <==> Has(acc, ps[i].key)) && Get(r, ps[i].key) == Get(acc, ps[i].key)
      {
        if i > 0 {
          assert ps[i] == ps[1..][i - 1];
        }
      }
    }
  }

  lemma {:induction false} ConvertEntriesFrame(settings: Settings, ps: seq<Prop>, acc: seq<Prop>)
    requires ConvertEntries(settings, ps, acc).Ok?
    ensures forall i :: 0 <= i < |ps| ==> ConvertEntry(settings, ps[i].val).Ok?
    ensures var r := ConvertEntries(settings, ps, acc).value;
      forall k :: k !in Keys(ps) ==> (Has(r, k) <==> Has(acc, k)) && Get(r, k) == Get(acc, k)
  {
    if ps != [] {
      var e := ConvertEntry(settings, ps[0].val).value;
      var acc' := if e.Some? then Put(acc, ps[0].key, e.value) else acc;
      assert ConvertEntries(settings, ps, acc) == ConvertEntries(settings, ps[1..], acc');
      ConvertEntriesFrame(settings, ps[1..], acc');
      assert forall i :: 1 <= i < |ps| ==> ps[i] == ps[1..][i - 1];
    }
  }

  lemma {:induction false} ConvertEntriesKeys(settings: Settings, ps: seq<Prop>, acc: seq<Prop>)
    requires DistinctKeys(ps)
    requires ConvertEntries(settings, ps, acc).Ok?
    ensures forall i :: 0 <= i < |ps| ==> ConvertEntry(settings, ps[i].val).Ok?
    ensures var r := ConvertEntries(settings, ps, acc).value;
      forall i :: 0 <= i < |ps| ==>
        match ConvertEntry(settings, ps[i].val).value
        case Some(v) => Has(r, ps[i].key) && Get(r, ps[i].key) == v
        case None => (Has(r, ps[i].key) <==> Has(acc, ps[i].key)) && Get(r, ps[i].key) == Get(acc, ps[i].key)
    ensures var r := ConvertEntries(settings, ps, acc).value;
      forall k :: k !in Keys(ps) ==> (Has(r, k) <==> Has(acc, k)) && Get(r, k) == Get(acc, k)
  {
    ConvertEntriesFrame(settings, ps, acc);
    if ps != [] {
      var e := ConvertEntry(settings, ps[0].val).value;
      var acc' := if e.Some? then Put(acc, ps[0].key, e.value) else acc;
      assert ConvertEntries(settings, ps, acc) == ConvertEntries(settings, ps[1..], acc');
      ConvertEntriesKeys(settings, ps[1..], acc');
      ConvertEntriesFrame(settings, ps[1..], acc');
      assert ps[0].key !in Keys(ps[1..]);
      var r := ConvertEntries(settings, ps[1..], acc').value;
      forall i | 0 <= i < |ps|
        ensures match ConvertEntry(settings, ps[i].val).value
          case Some(v) => Has(r, ps[i].key) && Get(r, ps[i].key) == v
          case None => (Has(r, ps[i].key) <==> Has(acc, ps[i].key)) && Get(r, ps[i].key) == Get(acc, ps[i].key)
      {
        if i > 0 {
          assert ps[i] == ps[1..][i - 1];
        }
      }
    }
  }

  /** `processComplexValue` on an object sets only keys of the mapping. */
  lemma ProcessComplexValueKeys(ps: seq<Prop>, settings: Settings)
    requires DistinctKeys(ps)
    requires ProcessComplexValue(Obj(ps), settings).Ok?
    ensures ProcessComplexValue(Obj(ps), settings).value.Obj?
    ensures forall k :: Has(ProcessComplexValue(Obj(ps), settings).value.props, k) ==> k in Keys(ps)
  {
    ProcessEntriesKeys(ps, settings, []);
    assert forall k :: !Has([], k);
  }

  /**
   * `processComplexValue` on an object, one sub-mapping at a time: a string
   * names the setting to copy; a record with a truthy `value` yields the
   * sized value of the setting `value` names; any other object is processed
   * recursively; a sub-mapping of any other kind sets no property.
   */
  lemma ProcessComplexValueAt(ps: seq<Prop>, settings: Settings, i: nat)
    requires DistinctKeys(ps)
    requires ProcessComplexValue(Obj(ps), settings).Ok?
    requires i < |ps|
    ensures ProcessComplexValue(Obj(ps), settings).value.Obj?
    ensures var r := ProcessComplexValue(Obj(ps), settings).value.props;
      var m := ps[i].val;
      (m.Str? ==> Has(r, ps[i].key) && Get(r, ps[i].key) == Read(settings, m.s)) &&
      (m.Obj? && Truthy(Get(m.props, "value")) ==> Has(r, ps[i].key) && Get(r, ps[i].key) == SizedValue(m.props, settings)) &&
      (m.Obj? && !Truthy(Get(m.props, "value")) ==>
        ProcessComplexValue(m, settings).Ok? && Has(r, ps[i].key) && Get(r, ps[i].key) == ProcessComplexValue(m, settings).value) &&
      (!m.Str? && !m.Obj? ==> !Has(r, ps[i].key))
  {
    ProcessEntriesKeys(ps, settings, []);
    assert ProcessEntry(ps[i].val, settings).Ok?;
    assert !Has([], ps[i].key);
  }

  /** A sized record with `return_size: false`: an object setting with a defined size and a truthy
    * unit becomes size and unit joined as one string; any other setting is returned whole. */
  lemma SizedValueJoinsUnit(ms: seq<Prop>, settings: Settings)
    requires Truthy(Get(ms, "value")) && Get(ms, "return_size") == Bool(false)
    ensures var v := Read(settings, ToStr(Get(ms, "value")));
      v.Obj? && Get(v.props, "size") != Undefined && Truthy(Get(v.props, "unit")) ==>
        SizedValue(ms, settings) == Str(ToStr(Get(v.props, "size")) + ToStr(Get(v.props, "unit")))
    ensures var v := Read(settings, ToStr(Get(ms, "value")));
      v.Obj? && (Get(v.props, "size") == Undefined || !Truthy(Get(v.props, "unit"))) ==> SizedValue(ms, settings) == v
    ensures var v := Read(settings, ToStr(Get(ms, "value")));
      !v.Obj? ==> SizedValue(ms, settings) == v
  {
  }

  /** A sized record without `return_size: false`: an object setting with a defined size yields
    * that size; any other setting is returned whole. */
  lemma SizedValueTakesSize(ms: seq<Prop>, settings: Settings)
    requires Truthy(Get(ms, "value")) && Get(ms, "return_size") != Bool(false)
    ensures var v := Read(settings, ToStr(Get(ms, "value")));
      v.Obj? && Get(v.props, "size") != Undefined ==> SizedValue(ms, settings) == Get(v.props, "size")
    ensures var v := Read(settings, ToStr(Get(ms, "value")));
      v.Obj? && Get(v.props, "size") == Undefined ==> SizedValue(ms, settings) == v
    ensures var v := Read(settings, ToStr(Get(ms, "value")));
      !v.Obj? ==> SizedValue(ms, settings) == v
  {
  }

  /** The slider control's setting `{unit, size, sizes}`: with `return_size: false` a defined size
    * and a truthy unit are joined, otherwise the size alone is taken when it is defined. */
  lemma SizedValueSlider(ms: seq<Prop>, settings: Settings, unit: JsVal, size: JsVal, sizes: JsVal)
    requires Truthy(Get(ms, "value"))
    requires Read(settings, ToStr(Get(ms, "value"))) == Obj([Prop("unit", unit), Prop("size", size), Prop("sizes", sizes)])
    ensures Get(ms, "return_size") == Bool(false) && size != Undefined && Truthy(unit) ==>
      SizedValue(ms, settings) == Str(ToStr(size) + ToStr(unit))
    ensures Get(ms, "return_size") != Bool(false) && size != Undefined ==> SizedValue(ms, settings) == size
    ensures size == Undefined ==> SizedValue(ms, settings) == Obj([Prop("unit", unit), Prop("size", size), Prop("sizes", sizes)])
  {
    var props := [Prop("unit", unit), Prop("size", size), Prop("sizes", sizes)];
    FindFirst(props, 0, "unit");
    FindFirst(props, 1, "size");
  }

  /** The condition of a record names a setting that is falsy. */
  predicate ConditionUnmet(ms: seq<Prop>, settings: Settings) {
    Truthy(Get(ms, "condition")) && !Truthy(Read(settings, ToStr(Get(ms, "condition"))))
  }

  /** `convertSettings` sets only keys of the settings map. */
  lemma ConvertSettingsKeys(settings: Settings, ps: seq<Prop>)
    requires DistinctKeys(ps)
    requires ConvertSettings(settings, ps).Ok?
    ensures forall k :: Has(ConvertSettings(settings, ps).value, k) ==> k in Keys(ps)
  {
    ConvertEntriesKeys(settings, ps, []);
    assert forall k :: !Has([], k);
  }

  /**
   * `convertSettings`, one mapping at a time: a string mapping copies its
   * setting when that is defined; a record whose condition fails yields
   * `false`; otherwise a record with a string `value` copies that setting,
   * reduced to its size under `return_size: true`, and one with an object
   * `value` yields the processed complex value; a group without `value` and
   * `condition` is converted recursively; nothing else sets a property.
   */
  lemma ConvertSettingsAt(settings: Settings, ps: seq<Prop>, i: nat)
    requires DistinctKeys(ps)
    requires ConvertSettings(settings, ps).Ok?
    requires i < |ps|
    ensures var r := ConvertSettings(settings, ps).value;
      var m := ps[i].val;
      (m.Str? ==> (Has(r, ps[i].key) <==> Read(settings, m.s) != Undefined) && Get(r, ps[i].key) == Read(settings, m.s)) &&
      (m.Obj? && ConditionUnmet(m.props, settings) ==> Has(r, ps[i].key) && Get(r, ps[i].key) == Bool(false)) &&
      (m.Obj? && !ConditionUnmet(m.props, settings) && Get(m.props, "value").Str? ==>
        Has(r, ps[i].key) && Get(r, ps[i].key) == SizeIfRequested(m.props, Read(settings, Get(m.props, "value").s))) &&
      (m.Obj? && !ConditionUnmet(m.props, settings) && Get(m.props, "value").Obj? ==>
        ProcessComplexValue(Get(m.props, "value"), settings).Ok? &&
        Has(r, ps[i].key) && Get(r, ps[i].key) == ProcessComplexValue(Get(m.props, "value"), settings).value) &&
      (m.Obj? && !ConditionUnmet(m.props, settings) && Has(m.props, "value") && !Get(m.props, "value").Str? && !Get(m.props, "value").Obj? ==>
        !Has(r, ps[i].key)) &&
      (m.Obj? && !Has(m.props, "value") && !Has(m.props, "condition") ==>
        ConvertSettings(settings, m.props).Ok? && Has(r, ps[i].key) && Get(r, ps[i].key) == Obj(ConvertSettings(settings, m.props).value)) &&
      (m.Obj? && !ConditionUnmet(m.props, settings) && !Has(m.props, "value") && Has(m.props, "condition") ==> !Has(r, ps[i].key)) &&
      (!m.Str? && !m.Obj? ==> !Has(r, ps[i].key))
  {
    ConvertEntriesKeys(settings, ps, []);
    assert ConvertEntry(settings, ps[i].val).Ok?;
    assert !Has([], ps[i].key);
    ConvertEntryCases(settings, ps[i].val);
  }

  /** What one mapping converts to, case by case, when the conversion does not throw. */
  lemma ConvertEntryCases(settings: Settings, m: JsVal)
    requires ConvertEntry(settings, m).Ok?
    ensures var e := ConvertEntry(settings, m).value;
      (m.Str? ==> e == if Read(settings, m.s) != Undefined then Some(Read(settings, m.s)) else None) &&
      (m.Obj? && ConditionUnmet(m.props, settings) ==> e == Some(Bool(false))) &&
      (m.Obj? && !ConditionUnmet(m.props, settings) && Get(m.props, "value").Str? ==>
        e == Some(SizeIfRequested(m.props, Read(settings, Get(m.props, "value").s)))) &&
      (m.Obj? && !ConditionUnmet(m.props, settings) && Get(m.props, "value").Obj? ==>
        ProcessComplexValue(Get(m.props, "value"), settings).Ok? && e == Some(ProcessComplexValue(Get(m.props, "value"), settings).value)) &&
      (m.Obj? && !ConditionUnmet(m.props, settings) && Has(m.props, "value") && !Get(m.props, "value").Str? && !Get(m.props, "value").Obj? ==>
        e == None) &&
      (m.Obj? && !Has(m.props, "value") && !Has(m.props, "condition") ==>
        ConvertSettings(settings, m.props).Ok? && e == Some(Obj(ConvertSettings(settings, m.props).value))) &&
      (m.Obj? && !ConditionUnmet(m.props, settings) && !Has(m.props, "value") && Has(m.props, "condition") ==> e == None) &&
      (!m.Str? && !m.Obj? ==> e == None)
  {
    if m.Obj? && !Has(m.props, "condition") {
      assert Get(m.props, "condition") == Undefined;
    }
  }

  // ---------------------------------------------------------------------
  // When processComplexValue throws
  // ---------------------------------------------------------------------

  /** Some sub-mapping the processing reaches is `null`. */
  predicate HasNullMapping(ps: seq<Prop>) {
    ps != [] && (NullOrReachesNull(ps[0].val) || HasNullMapping(ps[1..]))
  }

  predicate NullOrReachesNull(mapping: JsVal) {
    mapping == Null || (mapping.Obj? && !Truthy(Get(mapping.props, "value")) && HasNullMapping(mapping.props))
  }

  lemma {:induction false} ProcessEntryThrows(mapping: JsVal, settings: Settings)
    ensures ProcessEntry(mapping, settings).Err? <==> NullOrReachesNull(mapping)
    decreases mapping, 1
  {
    if mapping.Obj? && !Truthy(Get(mapping.props, "value")) {
      ProcessEntriesThrows(mapping.props, settings, []);
    }
  }

  lemma {:induction false} ProcessEntriesThrows(ps: seq<Prop>, settings: Settings, acc: seq<Prop>)
    ensures ProcessEntries(ps, settings, acc).Err? <==> HasNullMapping(ps)
    decreases ps, 0
  {
    if ps != [] {
      ProcessEntryThrows(ps[0].val, settings);
      var e := ProcessEntry(ps[0].val, settings);
      if e.Ok? {
        ProcessEntriesThrows(ps[1..], settings, if e.value.Some? then Put(acc, ps[0].key, e.value.value) else acc);
      }
    }
  }

  /**
   * `processComplexValue` throws exactly when its argument is `null` or
   * `undefined`, or an object in which the recursion reaches a `null`
   * sub-mapping.
   */
  lemma ProcessComplexValueThrows(valueMapping: JsVal, settings: Settings)
    ensures ProcessComplexValue(valueMapping, settings).Err? <==>
      valueMapping == Null || valueMapping == Undefined || (valueMapping.Obj? && HasNullMapping(valueMapping.props))
  {
    if valueMapping.Obj? {
      ProcessEntriesThrows(valueMapping.props, settings, []);
    }
  }

  // ---------------------------------------------------------------------
  // The live settings are the settings the conversion reads
  // ---------------------------------------------------------------------

  /** Two settings dictionaries agree on every listed key. */
  predicate Agree(s1: Settings, s2: Settings, keys: seq<JsVal>) {
    forall x :: x in keys ==> Read(s1, ToStr(x)) == Read(s2, ToStr(x))
  }

  lemma {:induction false} ProcessEntryAgree(mapping: JsVal, s1: Settings, s2: Settings)
    requires Agree(s1, s2, ExtractComplexKeys(mapping))
    ensures ProcessEntry(mapping, s1) == ProcessEntry(mapping, s2)
    decreases mapping, 1
  {
    match mapping
    case Str(s) =>
      assert mapping in ExtractComplexKeys(mapping);
    case Obj(ms) =>
      if Truthy(Get(ms, "value")) {
        assert Get(ms, "value") in ExtractComplexKeys(mapping);
      } else {
        ProcessEntriesAgree(ms, s1, s2, []);
      }
    case _ =>
  }

  lemma {:induction false} ProcessEntriesAgree(ps: seq<Prop>, s1: Settings, s2: Settings, acc: seq<Prop>)
    requires Agree(s1, s2, ExtractComplexAll(ps))
    ensures ProcessEntries(ps, s1, acc) == ProcessEntries(ps, s2, acc)
    decreases ps, 0
  {
    if ps != [] {
      ProcessEntryAgree(ps[0].val, s1, s2);
      var e := ProcessEntry(ps[0].val, s1);
      if e.Ok? {
        ProcessEntriesAgree(ps[1..], s1, s2, if e.value.Some? then Put(acc, ps[0].key, e.value.value) else acc);
      }
    }
  }

  lemma {:induction false} ConvertEntryAgree(mapping: JsVal, s1: Settings, s2: Settings)
    requires Agree(s1, s2, ExtractKeys(mapping))
    ensures ConvertEntry(s1, mapping) == ConvertEntry(s2, mapping)
    decreases mapping, 2
  {
    match mapping
    case Str(s) =>
      assert mapping in ExtractKeys(mapping);
    case Obj(ms) =>
      ConvertRecordAgree(ms, s1, s2);
    case _ =>
  }

  /** A record: its condition is a key, and so is what its `value` (or, without one, its group) reads. */
  lemma {:induction false} ConvertRecordAgree(ms: seq<Prop>, s1: Settings, s2: Settings)
    requires Agree(s1, s2, ExtractKeys(Obj(ms)))
    ensures ConvertEntry(s1, Obj(ms)) == ConvertEntry(s2, Obj(ms))
    decreases ms, 1
  {
    var keys := ExtractKeys(Obj(ms));
    var c := Get(ms, "condition");
    var head := if Truthy(c) then [c] else [];
    var rest := keys[|head|..];
    assert keys == head + rest;
    assert Agree(s1, s2, rest);
    if Truthy(c) {
      assert c in keys;
    }
    match Find(ms, "value") {
    case Some(i) =>
      var v := ms[i].val;
      if v.Str? && Truthy(v) {
        assert rest == [v];
        assert v in keys && ToStr(v) == v.s;
      } else if v.Str? {
        assert rest == ExtractAll(ms);
        ExtractAllHasKeys(ms, i);
        assert v in ExtractKeys(v);
      } else if v.Obj? {
        assert rest == ExtractComplexAll(v.props);
        ProcessEntriesAgree(v.props, s1, s2, []);
      }
    case None =>
      assert rest == ExtractAll(ms);
      ConvertEntriesAgree(ms, s1, s2, []);
    }
  }

  lemma {:induction false} ExtractAllHasKeys(ps: seq<Prop>, i: nat)
    requires i < |ps|
    ensures forall x :: x in ExtractKeys(ps[i].val) ==> x in ExtractAll(ps)
  {
    if i > 0 {
      ExtractAllHasKeys(ps[1..], i - 1);
      assert ps[1..][i - 1] == ps[i];
    }
  }

  lemma {:induction false} ConvertEntriesAgree(ps: seq<Prop>, s1: Settings, s2: Settings, acc: seq<Prop>)
    requires Agree(s1, s2, ExtractAll(ps))
    ensures ConvertEntries(s1, ps, acc) == ConvertEntries(s2, ps, acc)
    decreases ps, 0
  {
    if ps != [] {
      ConvertEntryAgree(ps[0].val, s1, s2);
      var e := ConvertEntry(s1, ps[0].val);
      if e.Ok? {
        ConvertEntriesAgree(ps[1..], s1, s2, if e.value.Some? then Put(acc, ps[0].key, e.value.value) else acc);
      }
    }
  }

  /**
   * Two elements whose settings agree on every live setting convert to the
   * same settings object (or throw the same error): the live settings are
   * all the editor has to watch.
   */
  lemma ConvertSettingsReadsOnlyLiveSettings(settingsMap: seq<Prop>, additional: seq<JsVal>, s1: Settings, s2: Settings)
    requires Agree(s1, s2, LiveSettings(settingsMap, additional))
    ensures ConvertSettings(s1, settingsMap) == ConvertSettings(s2, settingsMap)
  {
    Dedup.UniqueIsDeduplication(ExtractAll(settingsMap) + additional);
    ConvertEntriesAgree(settingsMap, s1, s2, []);
  }

  /** The value object of the counterexample below: its own `value` and a `unit` sub-mapping. */
  const SizeUnitValue := [Prop("value", Str("size_setting")), Prop("unit", Str("unit_setting"))]
  /** The settings map of the counterexample below: one record whose `value` object has its own `value`. */
  const SizeUnitMap := [Prop("size", Obj([Prop("value", Obj(SizeUnitValue))]))]

  /** What the value object is processed into: both sub-mappings are read. */
  function SizeUnitProcessed(s: Settings): JsVal {
    Obj([Prop("value", Read(s, "size_setting")), Prop("unit", Read(s, "unit_setting"))])
  }

  lemma ConvertSizeUnitMap(s: Settings)
    ensures ConvertSettings(s, SizeUnitMap) ==
      Ok([Prop("size", Obj([Prop("value", Read(s, "size_setting")), Prop("unit", Read(s, "unit_setting"))]))])
  {
    var pv := SizeUnitProcessed(s);
    SizeUnitRecordConverted(s);
    assert SizeUnitMap[1..] == [];
    assert Put([], "size", pv) == [Prop("size", pv)];
    assert ConvertEntries(s, SizeUnitMap, []) == ConvertEntries(s, SizeUnitMap[1..], [Prop("size", pv)]);
  }

  lemma SizeUnitRecordConverted(s: Settings)
    ensures ConvertEntry(s, SizeUnitMap[0].val) == Ok(Some(SizeUnitProcessed(s)))
  {
    var outer := [Prop("value", Obj(SizeUnitValue))];
    assert SizeUnitMap[0].val == Obj(outer);
    assert "condition" != "value";
    assert Find(outer, "value") == Some(0);
    assert Get(outer, "condition") == Undefined;
    SizeUnitValueProcessed(s);
  }

  lemma SizeUnitValueProcessed(s: Settings)
    ensures ProcessEntries(SizeUnitValue, s, []) == Ok(SizeUnitProcessed(s).props)
  {
    var inner := SizeUnitValue;
    var p0 := [Prop("value", Read(s, "size_setting"))];
    var p1 := [Prop("value", Read(s, "size_setting")), Prop("unit", Read(s, "unit_setting"))];
    assert Put([], "value", Read(s, "size_setting")) == p0;
    assert Put(p0, "unit", Read(s, "unit_setting")) == p1 by {
      assert "value" != "unit";
      assert Find(p0, "unit") == None;
    }
    assert ProcessEntries(inner[1..], s, p0) == Ok(p1) by {
      assert inner[1..][1..] == [];
      assert ProcessEntry(inner[1..][0].val, s) == Ok(Some(Read(s, "unit_setting")));
    }
    assert ProcessEntry(inner[0].val, s) == Ok(Some(Read(s, "size_setting")));
  }

  /**
   * As written, a value object with its own `value` key hides its other
   * sub-mappings from the live settings: here `unit_setting` is read by the
   * conversion but not listed, so changing it alone changes the result.
   */
  lemma LiveSettingsAsWrittenMissesKey()
    ensures var s1: Settings := map[];
      var s2: Settings := map["unit_setting" := Str("px")];
      LiveSettingsAsWritten(SizeUnitMap, []) == [Str("size_setting")] &&
      Agree(s1, s2, LiveSettingsAsWritten(SizeUnitMap, [])) &&
      ConvertSettings(s1, SizeUnitMap) != ConvertSettings(s2, SizeUnitMap)
  {
    var inner := SizeUnitValue;
    var outer := [Prop("value", Obj(inner))];
    assert "condition" != "value";
    assert Find(inner, "value") == Some(0);
    assert Find(outer, "value") == Some(0);
    assert ExtractKeysAsWritten(Obj(inner)) == [Str("size_setting")];
    assert ExtractKeysAsWritten(Obj(outer)) == [Str("size_setting")];
    assert ExtractAllAsWritten(SizeUnitMap) == [Str("size_setting")];
    assert Dedup.Unique([Str("size_setting")]) == [Str("size_setting")];
    var s1: Settings := map[];
    var s2: Settings := map["unit_setting" := Str("px")];
    assert "unit_setting" != "size_setting";
    ConvertSizeUnitMap(s1);
    ConvertSizeUnitMap(s2);
  }
}
