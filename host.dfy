/**
 * What the plugin's PHP code sees of WordPress, Elementor and PHP's own
 * runtime: which files exist, which classes exist (with the constants and
 * methods the managers look up on them), the files loaded so far, and the
 * calls made into WordPress and Elementor, recorded in order.
 */
module Host {
  import opened Wrappers
  import opened PhpValues

  /** A PHP value that is not an array. */
  type Scalar = v: PhpVal | !v.PArr? witness PNull

  /** A class constant `EDITOR_CHANGE_CALLBACK_CONTROLS`: a list of control names, or a value that is not an array. */
  datatype LiveConst = ListConst(items: seq<string>) | ScalarConst(v: Scalar)

  /** What the managers look up on an existing class. */
  datatype ClassInfo = ClassInfo(
    tabId: string,                      // `TAB_ID`
    liveControls: Option<LiveConst>,    // `EDITOR_CHANGE_CALLBACK_CONTROLS`, when defined
    hasAddInitAction: bool,             // `method_exists($widget, 'add_init_action')`
    editorJs: Option<string>)           // `get_elementor_editor_handler_js_string()`, when the method exists

  /** A call into WordPress or Elementor. */
  datatype Call =
    | RegisterTab(tabId: string, cls: string)           // `$kit->register_tab`
    | AddCategory(name: PhpVal, props: seq<Pair>)       // `$elements_manager->add_category`
    | RegisterWidget(cls: string)                       // `$widgets_manager->register`
    | InitAction(cls: string)                           // `$widget->add_init_action()`
    | DoAction(hook: string)                            // `do_action`
    | AddFilter(hook: string, callback: string)         // `add_filter` with the default priority
    | AddAction(hook: string, callback: string, priority: PhpVal, acceptedArgs: PhpVal)  // `add_action`
    | ApplyFilters(hook: string)                        // `apply_filters`

  /** The string under a set string key of an entry such as `$tab['class']`. */
  function StringAt(entry: PhpVal, key: string): Option<string> {
    if IsSetOn(entry, key) && Index(entry.entries, StrKey(key)).PStr? then Some(Index(entry.entries, StrKey(key)).s)
    else None
  }

  class Host {
    /** `file_exists`. */
    const files: set<string>
    /** `class_exists`, and what each existing class provides. */
    const classes: map<string, ClassInfo>
    /** The files loaded by `require_once`. */
    var required: set<string>
    /** The calls made so far, in order. */
    var log: seq<Call>

    constructor (files: set<string>, classes: map<string, ClassInfo>)
      ensures this.files == files && this.classes == classes
      ensures required == {} && log == []
    {
      this.files := files;
      this.classes := classes;
      required := {};
      log := [];
    }

    /** `file_exists($f) && require_once $f`, as the callers pair them. */
    method RequireIfExists(f: string)
      modifies this
      ensures required == if f in files then old(required) + {f} else old(required)
      ensures log == old(log)
    {
      if f in files {
        required := required + {f};
      }
    }

    method Record(call: Call)
      modifies this
      ensures log == old(log) + [call]
      ensures required == old(required)
    {
      log := log + [call];
    }
  }
}
