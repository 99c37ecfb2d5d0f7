# Arts Elementor Extension — a Dafny model of its core

This project models the parts of the Arts Elementor Extension WordPress plugin whose behaviour can be stated, and proves properties of that model:

- **The editor's settings-mapping interpreter** (`convertSettings`, `processComplexValue`, `getLiveSettings` in `src/js/editor/utilities.js`). A widget's settings map is a tree of strings, `{condition, value, return_size}` records and nested groups. It is interpreted over a flat dictionary of Elementor settings. JavaScript values are the datatype `JsValues.JsVal`; objects keep their insertion order.
- **The kit tabs' value converters** between the Elementor editor and the WordPress Customizer, and the filter that picks the current tab's controls (`src/php/Tabs/BaseTab.php`).
- **The registration managers** for kit tabs, widget categories and widgets (`src/php/Managers/*.php`). File and class existence are oracles held by a `Host.Host` object. Every call into WordPress or Elementor is appended to its call log.
- **Manager wiring and property initialisation** in both manager base classes.
- **The plugin bootstrap**: the per-class singleton registry, the fixed `init` order, filter names, the directory URL and the run action (`src/php/Plugins/BasePlugin.php`).
- **The widget helpers**: the widget singleton registry, option lookup, the repeater controls chosen by the static field set, preload and prefetch maps, and the WPML registration (`src/php/Widgets/BaseWidget.php`, `Traits/Preloads.php`, `Traits/WPML.php`).
- **The TypeScript build script's pure configuration and its output reconciliation**: the entry point, tsconfig path, temporary directory, mode settings, watch glob, `syncWebpackOutputToLibrary` over an in-memory directory tree, and the single-build resolve/reject rule (`__build__/src/utils/assets/typescript.js`).

PHP values are the datatype `PhpValues.PhpVal`. Arrays are ordered lists of key/value pairs, with PHP's key casts, `isset`, `empty` and `array_merge` written out.

Modules: `Wrappers` (Option, Result, errors), `Text` (string helpers), `Dedup` (first-occurrence de-duplication), `JsValues`, `PhpValues`, `Host`, `EditorUtilities`, `BaseTab`, `ManagerWiring`, `ManagersBase`, `TabsManager`, `CategoriesManager`, `WidgetsManager`, `PluginManager`, `BasePlugin`, `BaseWidget`, `Preloads`, `Wpml`, `BuildConfig`, `OutputSync`.

## Model

| member | source | states |
|---|---|---|
| EditorUtilities.ProcessComplexValueAt | src/js/editor/utilities.js:15-45 | For each sub-mapping of a complex value: a string copies the named setting; a record with a truthy `value` yields the sized value; any other object recurses; a non-string, non-object sub-mapping sets no key |
| EditorUtilities.ProcessComplexValueKeys | src/js/editor/utilities.js:15-45 | The processed object has only keys of the mapping |
| EditorUtilities.SizedValueJoinsUnit | src/js/editor/utilities.js:25-32 | With `return_size: false`, an object setting whose size is defined and whose unit is truthy becomes the string size followed by unit; any other object setting, and any setting that is not an object, is returned whole |
| EditorUtilities.SizedValueTakesSize | src/js/editor/utilities.js:33-39 | Without `return_size: false`, an object setting whose size is defined yields that size; any other object setting, and any setting that is not an object, is returned whole |
| EditorUtilities.SizedValueSlider | src/js/editor/utilities.js:25-39 | For a slider setting `{unit, size, sizes}` with a defined size: with `return_size: false` and a truthy unit, size and unit are joined; without `return_size: false`, the size alone; an undefined size returns the whole setting |
| EditorUtilities.ProcessComplexValueThrows | src/js/editor/utilities.js:7-48 | Processing throws exactly when the mapping is null or undefined, or when the recursion reaches a null sub-mapping |
| EditorUtilities.ConvertSettingsAt | src/js/editor/utilities.js:56-107 | Per mapping: a string copies its setting, and the key is present iff the setting is defined; an unmet condition gives exactly `false`; a string `value` copies the setting, reduced to its size under `return_size: true`; an object `value` gives the processed complex value; a group without `value` and `condition` recurses; a met condition without `value` sets nothing |
| EditorUtilities.ConvertSettingsKeys | src/js/editor/utilities.js:56-107 | The converted object has only keys of the settings map |
| EditorUtilities.ExtractRecordsConditionAndValue | src/js/editor/utilities.js:122-142 | Extraction records a truthy `condition` and a truthy string `value`; a record with a truthy `value` is not traversed beyond those two properties |
| EditorUtilities.GetLiveSettings | src/js/editor/utilities.js:115-150 | As the source writes it: the loop returns the keys `extractFromObject` pushes, in traversal order, then the additional settings, each at its first occurrence, with no duplicates; every pushed or additional key is listed |
| EditorUtilities.ConvertSettingsReadsOnlyLiveSettings | src/js/editor/utilities.js:56-150 | Corrected: two settings dictionaries that agree on every setting of the corrected live list (`LiveSettings`) convert to the same result, so that list is all the conversion reads |
| EditorUtilities.ConvertSizeUnitMap | src/js/editor/utilities.js:95-97 | A record whose object `value` has its own `value` and `unit` reads both settings |
| EditorUtilities.LiveSettingsAsWrittenMissesKey | src/js/editor/utilities.js:122-149 | As written, the live settings for that record list only the size setting, yet changing the unit setting alone changes the converted result |
| JsValues.Put | src/js/editor/utilities.js:16-18 | `o[k] = v` sets `k` to `v`, leaves every other property alone and appends a new key at the end |
| Dedup.UniqueIsDeduplication | src/js/editor/utilities.js:146-149 | `[...new Set(keys)]` lists every element of the input exactly once |
| Dedup.Deduplicate | src/php/Managers/Tabs.php:80-95 | The de-duplicating loop computes `Unique` and yields no duplicates |
| BaseTab.ElementorToCustomizerCases | src/php/Tabs/BaseTab.php:129-148 | `'yes'` becomes `true`, `''` becomes `false`, an array with a `size` key becomes that size, and every other value is unchanged |
| BaseTab.CustomizerToElementorIdentity | src/php/Tabs/BaseTab.php:158-169 | For a type other than the switcher, and for any non-boolean value, the conversion to the editor is the identity |
| BaseTab.SwitcherEditorRoundTrip | src/php/Tabs/BaseTab.php:129-169 | A switcher's `'yes'` or `''` survives a round trip through the Customizer |
| BaseTab.SwitcherCustomizerRoundTrip | src/php/Tabs/BaseTab.php:129-169 | A switcher's `true` or `false` survives a round trip through the editor |
| BaseTab.SliderToCustomizer | src/php/Tabs/BaseTab.php:138-147 | A slider value goes to the Customizer as its size, and comes back as that size for any control type |
| BaseTab.CurrentTabControlsIsFilter | src/php/Tabs/BaseTab.php:109-120 | The current tab's controls are exactly the input controls of this tab with a synchronised type; they never outnumber the input; a list of only such controls is kept whole |
| BaseTab.Tab.GetId | src/php/Tabs/BaseTab.php:43-45 | The tab id is the concrete class's `TAB_ID` |
| BaseTab.Tab.RegisterControls | src/php/Tabs/BaseTab.php:88-93 | The four steps run in order: before, register tab, register controls, after |
| BaseTab.Tab.GetCurrentTabControls | src/php/Tabs/BaseTab.php:109-120 | The loop returns the order-preserving filter, with membership in both directions |
| TabsManager.RegisteredClassesMembers | src/php/Managers/Tabs.php:53-65 | A class is registered iff some tab names it and the class exists; at most one registration per tab |
| TabsManager.RegisteredClassesExist | src/php/Managers/Tabs.php:57-60 | Every registered class exists |
| TabsManager.RegisterTabCallsMatchClasses | src/php/Managers/Tabs.php:62-64 | There is one `register_tab` call per accepted class, in the same order, each with that class's `TAB_ID` |
| TabsManager.Tabs.Register | src/php/Managers/Tabs.php:46-70 | A missing or empty tab list changes nothing. Otherwise the existing files are loaded, the accepted classes are appended to the references, and `register_tab` calls, then the action and the filter, are logged in order |
| TabsManager.RegisterTwice | src/php/Managers/Tabs.php:46-70 | Calling `register` twice on a non-empty tab list appends the accepted classes to the references twice and repeats the `register_tab` calls and both hooks, so with any accepted class the second call is not a no-op; an empty list changes nothing either time |
| TabsManager.Tabs.GetTabsLiveControls | src/php/Managers/Tabs.php:80-95 | For a tab array with no string tab: each tab's non-empty array of live controls, in tab order, each name kept at its first occurrence, without duplicates. A tab that is a string makes `$tab['class']` throw PHP 8's string-offset `TypeError`, whatever the other tabs hold. A tab list that is not an array gives an empty list |
| TabsManager.ListArrayShape | src/php/Managers/Tabs.php:76 | The list of collected controls that `array_merge` appends holds exactly those controls under integer keys, in order, with no string key and no key twice |
| TabsManager.Tabs.AddTabLiveSettings | src/php/Managers/Tabs.php:72-78 | Fails exactly when the tab array holds a string tab, with that `TypeError`. Otherwise the incoming settings come first, followed by the tab live controls, and every string key keeps the incoming value |
| TabsManager.Tabs.ApplyTabsFilter | src/php/Managers/Tabs.php:35-37 | The tab list becomes the filter's result and one `apply_filters` call is logged |
| TabsManager.Tabs.Init | src/php/Managers/BaseManager.php:61-64 | The inherited `init`: the tabs filter runs, then `add_managers` with `$this` being this tabs manager, so an entry holding it is skipped and a managers map without it stays without it |
| CategoriesManager.CategoryPropsShape | src/php/Managers/Categories.php:45-52 | A category's properties always hold its title, hold its icon iff the category sets one, and hold nothing else |
| CategoriesManager.CategoryCallsPerValid | src/php/Managers/Categories.php:40-55 | One `add_category` call per valid category, in input order, with that category's name and properties; a category is valid iff its name and title are set |
| CategoriesManager.Categories.Register | src/php/Managers/Categories.php:35-59 | A missing or empty list logs nothing. Otherwise the log gains the valid categories' calls, then the `categories_registered` action |
| CategoriesManager.Categories.ApplyCategoriesFilter | src/php/Managers/Categories.php:24-26 | The category list becomes the filter's result |
| CategoriesManager.Categories.Init | src/php/Managers/BaseManager.php:61-64 | The inherited `init`: the categories filter runs, then `add_managers` with `$this` being this categories manager, which is never stored |
| WidgetsManager.WidgetInstancesMembers | src/php/Managers/Widgets.php:87-101 | An instance is created for a class iff some entry has a set, existing file and a set class, and that class exists; instances never outnumber entries |
| WidgetsManager.WidgetInstancesEmpty | src/php/Managers/Widgets.php:77-101 | No instance is created iff no entry is loadable with an existing class, so the next call tries again |
| WidgetsManager.InstantiatedIdempotent | src/php/Managers/Widgets.php:77-79 | Once populated, `instances` stays the same and nothing more is loaded |
| WidgetsManager.Widgets.Instantiate | src/php/Managers/Widgets.php:75-102 | The instances become the lazily instantiated list; the files loaded are the base files and the loadable entries' files, and only when `instances` was empty |
| WidgetsManager.RegisterWidgetCalls | src/php/Managers/Widgets.php:67-69 | One `register` call per instance, in instance order |
| WidgetsManager.Widgets.Register | src/php/Managers/Widgets.php:60-73 | After instantiating, each instance is registered once in order, then the action is logged; nothing is logged without instances |
| WidgetsManager.Widgets.AddInitActions | src/php/Managers/Widgets.php:104-116 | After instantiating, `add_init_action` is logged for each instance whose class has it, in order |
| WidgetsManager.EditorJsStringShape | src/php/Managers/Widgets.php:123-145 | The script is `''` without instances; otherwise it is the fixed prefix, the handler strings joined by newlines, and the fixed suffix |
| WidgetsManager.HandlerStringsOnlyProviders | src/php/Managers/Widgets.php:130-135 | The handler strings are exactly those of instances that provide one |
| WidgetsManager.Widgets.GetElementorEditorJsString | src/php/Managers/Widgets.php:123-145 | Returns the editor script for the instances after instantiating, and logs no call |
| WidgetsManager.Widgets.ApplyWidgetsFilter | src/php/Managers/Widgets.php:49-51 | The widget list becomes the filter's result |
| WidgetsManager.Widgets.Init | src/php/Managers/BaseManager.php:61-64 | The inherited `init`: the widgets filter runs, then `add_managers` with `$this` being this widgets manager, which is never stored |
| ManagerWiring.AddedProperties | src/php/Managers/BaseManager.php:101-114 | After `add_managers`, a key is present iff it was present before or an input entry with a manager other than `$this` names it; `$this` is never stored; keys absent from the input keep their manager |
| ManagerWiring.AddedLastWins | src/php/Managers/BaseManager.php:106-111 | The last entry for a key wins, unless it is `$this` |
| ManagersBase.ExistingFilesMembers | src/php/Managers/BaseManager.php:84-94 | The loaded files are exactly the listed files that exist |
| ManagersBase.BaseManager.constructor | src/php/Managers/BaseManager.php:51-54 | `args` and `strings` are stored as given |
| ManagersBase.BaseManager.RequireFiles | src/php/Managers/BaseManager.php:84-94 | Only the listed files that exist are loaded, and nothing is logged |
| ManagersBase.BaseManager.AddManagers | src/php/Managers/BaseManager.php:101-114 | The managers property is created if unset, then filled excluding the `owner` object that `$this` stands for (the concrete manager); nothing else changes |
| ManagersBase.BaseManager.Init | src/php/Managers/BaseManager.php:61-64 | Filters are applied before managers are added, and the managers exclude `owner` |
| ManagersBase.BaseManager.InitProperty | src/php/Managers/BaseManager.php:126-132 | When `args[property]` is set and not null, the property named `property` reads that value afterwards (a declared one such as `args` or `strings` is overwritten); every other property, and all properties otherwise, keep their values |
| ManagersBase.BaseManager.InitArrayProperty | src/php/Managers/BaseManager.php:145-151 | The property named `property` takes `args[property]` exactly when that is a set, non-empty array (declared properties included); every other property keeps its value |
| PluginManager.ArgOrNull | src/php/Plugins/BaseManager.php:59-69 | A field gets `args[key]` when it is set, and stays null otherwise |
| PluginManager.Manager.constructor | src/php/Plugins/BaseManager.php:56-73 | Directory path, URL and AJAX URL are set only from set `args` keys; `args`, `config` and `strings` are stored as given |
| PluginManager.Manager.AddManagers | src/php/Plugins/BaseManager.php:90-103 | Managers are copied excluding `$this`, and earlier entries are kept; nothing else changes |
| PluginManager.Manager.Init | src/php/Plugins/BaseManager.php:80-83 | `init_properties` runs before `add_managers` |
| PluginManager.Manager.InitProperty | src/php/Plugins/BaseManager.php:124-130 | When `config[property]` is set and not null, the property named `property` reads that value afterwards (a declared one such as `config` or `plugin_dir_url` is overwritten); every other property, and all properties otherwise, keep their values |
| PluginManager.Manager.InitArrayProperty | src/php/Plugins/BaseManager.php:143-149 | The property named `property` takes `config[property]` exactly when that is a set, non-empty array (declared properties included); every other property keeps its value |
| BasePlugin.FiltersPortionNameHasNoBackslash | src/php/Plugins/BasePlugin.php:341-352 | The filter-name prefix contains no backslash |
| BasePlugin.FiltersPortionNameParts | src/php/Plugins/BasePlugin.php:341-352 | A qualified class name splits at its last backslash into namespace and short name; a name without a namespace gives `/` and the lowercase name |
| BasePlugin.FilterNames | src/php/Plugins/BasePlugin.php:184-193 | The four filters are `prefix/args`, `prefix/config`, `prefix/strings` and `prefix/run_action`, in that order |
| BasePlugin.ApplyFilterCalls | src/php/Plugins/BasePlugin.php:187-190 | One `apply_filters` call per filter name, in order |
| BasePlugin.PluginDirUrlCases | src/php/Plugins/BasePlugin.php:162-177 | The plugins-directory prefix is checked first, then the theme root, else `''`; with a single occurrence of the prefix, the URL is built from the rest of the path |
| BasePlugin.PluginDirUrlStripsEveryOccurrence | src/php/Plugins/BasePlugin.php:168 | `str_replace` strips every occurrence of the plugins directory, not only the prefix |
| BasePlugin.RunActionCallsCases | src/php/Plugins/BasePlugin.php:195-217 | `run` is hooked at most once, and only for a non-empty string run action (not `'0'`), with priority 10 and one argument |
| BasePlugin.ManagerSlotsLookup | src/php/Plugins/BasePlugin.php:283-295 | Each key ends up with a manager built from the last class given for it; other properties are unchanged |
| BasePlugin.InitialArgsAjaxUrl | src/php/Plugins/BasePlugin.php:130-136 | The initial `args` carry the directory path, the URL and the registry's AJAX URL as it is at that moment |
| BasePlugin.Plugin.constructor | src/php/Plugins/BasePlugin.php:91-123 | Construction runs the eight init steps in order, with filtered args, config, strings and run action, the managers, their `init`, and the log of filter and action calls |
| BasePlugin.Plugin.Init | src/php/Plugins/BasePlugin.php:112-123 | The eight steps run in the fixed order: properties, filters, managers, init_managers, after-init, options, run action, after-run |
| BasePlugin.Plugin.InitProperties | src/php/Plugins/BasePlugin.php:130-142 | Empty managers, the initial `args`, and the defaults |
| BasePlugin.Plugin.ApplyFilters | src/php/Plugins/BasePlugin.php:184-193 | Each of the four values passes through its own filter, in order |
| BasePlugin.Plugin.AddManagers | src/php/Plugins/BasePlugin.php:283-295 | Nothing happens for a missing or empty class list; otherwise there is one manager per key |
| BasePlugin.Plugin.InitManagers | src/php/Plugins/BasePlugin.php:302-316 | `init` runs on each manager that has it, in property order |
| BasePlugin.Plugin.AddOptions | src/php/Plugins/BasePlugin.php:237-241 | The options start as an empty array |
| BasePlugin.Plugin.AddRunAction | src/php/Plugins/BasePlugin.php:208-217 | Logs exactly the run-action hook, if any |
| BasePlugin.Registry.Instance | src/php/Plugins/BasePlugin.php:72-84 | One instance per concrete class: a second call returns the same object and logs nothing; the AJAX URL is set only when it is still null |
| BasePlugin.FirstPluginHasNoAjaxUrl | src/php/Plugins/BasePlugin.php:72-84 | As written, the first plugin is built while the AJAX URL is still null, so its `args['ajax_url']` is not set |
| BasePlugin.Registry.InstanceAjaxFirst | src/php/Plugins/BasePlugin.php:72-84 | With the URL set before construction, the registry behaves the same and the URL is never null afterwards |
| BasePlugin.AjaxFirstArgsCarryUrl | src/php/Plugins/BasePlugin.php:130-136 | With a set AJAX URL, every plugin's initial `args` carry it |
| BaseWidget.StaticFieldsControlsSpec | src/php/Widgets/BaseWidget.php:185-336 | A control is emitted iff its name is in the field set under PHP's loose `in_array`, in the fixed order title, date, category, year, description, link, image, secondary image, video |
| BaseWidget.SelectedMembers | src/php/Widgets/BaseWidget.php:185-336 | The selected controls are exactly the table's controls whose name is in the field set |
| BaseWidget.SelectedIsSublist | src/php/Widgets/BaseWidget.php:185-336 | The selected controls keep the table's order |
| BaseWidget.DefaultStaticFieldsControls | src/php/Widgets/BaseWidget.php:31-40 | With the default field set, every control except the date is emitted, and no date control |
| BaseWidget.TrueSelectsAll | src/php/Widgets/BaseWidget.php:185-336 | A `true` in the field set selects every control, because `in_array` is loose |
| BaseWidget.Widget.GetStaticFieldsRepeaterControls | src/php/Widgets/BaseWidget.php:185-336 | The repeater receives exactly the selected controls, in order |
| BaseWidget.GetOptionValue | src/php/Widgets/BaseWidget.php:347-360 | An absent key `prefix . option` gives `false` |
| BaseWidget.GetOptionValueAfterAssign | src/php/Widgets/BaseWidget.php:347-360 | A set option reads back its value; with a truthy `return_size` and an array value that has `size`, it reads that size |
| BaseWidget.GetOptionValueOtherKeys | src/php/Widgets/BaseWidget.php:347-360 | Assigning one option does not change what another option reads |
| BaseWidget.GetOptionValueFalse | src/php/Widgets/BaseWidget.php:347-360 | A present option reads `false` only when its value, or its size, is `false` |
| BaseWidget.Widget.RegisterControls | src/php/Widgets/BaseWidget.php:367-372 | The content, settings, layout and style registrars run in that order |
| BaseWidget.Widget.AddActions | src/php/Widgets/BaseWidget.php:74-77 | The four preload filters are added, each with its callback |
| BaseWidget.Widget.AddInitAction | src/php/Widgets/BaseWidget.php:79-82 | The WPML filter is added |
| BaseWidget.Registry.Instance | src/php/Widgets/BaseWidget.php:54-67 | One widget per class: a known class returns its widget; `allowed_html` changes only while it is null |
| BaseWidget.InstanceTwice | src/php/Widgets/BaseWidget.php:47-67 | Two calls return the same widget, and `allowed_html` stays the declared empty array |
| Preloads.AssetsMapFromLookup | src/php/Widgets/Traits/Preloads.php:68-86 | Each id maps to the src of the last asset with that id and a set src; an asset without id or src adds nothing; an array id throws |
| Preloads.PreloadAssetsMapEmpty | src/php/Widgets/Traits/Preloads.php:68-86 | No skin, or a skin without frontend files, gives an empty map |
| Preloads.GetPreloadAssetsMap | src/php/Widgets/Traits/Preloads.php:68-86 | The loop computes the specified map |
| Preloads.AddPreloadAssetsKeys | src/php/Widgets/Traits/Preloads.php:29-31 | `array_merge`: on string keys the widget's entries win and every other entry is kept; integer-keyed values are concatenated |
| Preloads.AddPreloadImagesKeepsMap | src/php/Widgets/Traits/Preloads.php:39-104 | With the default empty maps, the images and modules merges leave every string key and every list value as they were |
| Preloads.PrefetchMapShape | src/php/Widgets/Traits/Preloads.php:111-123 | At most one entry, keyed `Widget_Video_` followed by the widget id and holding the first post's video URL; present whenever that URL is truthy |
| Preloads.PrefetchMapErrors | src/php/Widgets/Traits/Preloads.php:111-123 | No posts give an empty map; a `TypeError` arises exactly from a truthy string post, or a truthy non-array video |
| Preloads.AddPrefetchKeys | src/php/Widgets/Traits/Preloads.php:59-61 | Merging the prefetch map: the widget's key wins and every other string key is kept |
| Wpml.FilterWidgetsToTranslateEntry | src/php/Widgets/Traits/WPML.php:25-35 | The widget's name now maps to its conditions, fields and integration class; every other key is unchanged |
| Wpml.FilterWidgetsToTranslateIdempotent | src/php/Widgets/Traits/WPML.php:25-35 | Applying the filter twice is applying it once |
| Wpml.DefaultWpmlEntry | src/php/Widgets/Traits/WPML.php:42-58 | With the trait's defaults, `fields` is empty and `integration-class` is not set |
| PhpValues.Assign | src/php/Widgets/Traits/WPML.php:28-34 | `$a[k] = v`: `k` reads `v`, every other key is unchanged, an existing key keeps its place, a new key goes last |
| PhpValues.ArrayMergeStringKeys | src/php/Widgets/Traits/Preloads.php:29-61 | `array_merge` on string keys: the second array wins, otherwise the first array's value is kept |
| PhpValues.ArrayMergeIntKeys | src/php/Managers/Tabs.php:76 | `array_merge` concatenates the integer-keyed values and renumbers them from 0 |
| PhpValues.KeyOf | src/php/Widgets/Traits/Preloads.php:80 | PHP's key cast: a non-numeric string stays a string key, an int stays an int key, and an array offset throws |
| BuildConfig.TempOutputDir | __build__/src/utils/assets/typescript.js:14-16 | The temporary output directory is always `root/__build__/temp_webpack_build` |
| BuildConfig.EntryPointCases | __build__/src/utils/assets/typescript.js:35-41 | A truthy `ts.entry` wins; otherwise a trailing JS extension is swapped for the TS one, and an entry that does not match is kept |
| BuildConfig.ReplaceAtEndSwapsExtension | __build__/src/utils/assets/typescript.js:38-40 | Swapping the extension keeps the stem |
| BuildConfig.ReplaceAtEndOnlyAtEnd | __build__/src/utils/assets/typescript.js:38-40 | Only an end-anchored match is replaced |
| BuildConfig.ReplaceAtEndDotUnescaped | __build__/src/utils/assets/typescript.js:38-40 | The unescaped `.` matches any character but a line terminator, so `_js` is rewritten as well |
| BuildConfig.ReplaceAtEndDotSkipsLineTerminator | __build__/src/utils/assets/typescript.js:38-40 | Without the `s` flag `.` does not match a line terminator, so an entry ending in a newline and `js` is kept |
| BuildConfig.DefaultEntryPoint | __build__/src/utils/assets/typescript.js:35-41 | With every value undefined, the entry is `./src/js/index.ts` under the root |
| BuildConfig.TsconfigFullPathCases | __build__/src/utils/assets/typescript.js:44-47 | An absolute tsconfig path is kept; a relative one is joined to the root; the default is `tsconfig.json` |
| BuildConfig.LoaderConfigFile | __build__/src/utils/assets/typescript.js:74 | `configFile` is passed iff the tsconfig file exists |
| BuildConfig.ModeSettingsIff | __build__/src/utils/assets/typescript.js:51-89 | Development mode holds iff mode is `development`, devtool is `source-map`, and minification and console dropping are off |
| BuildConfig.WatchGlobParts | __build__/src/utils/assets/typescript.js:232-233 | The glob is `**/*.{` … `}`, and splitting its inner part at commas gives back each extension without its first character |
| BuildConfig.DefaultWatchGlob | __build__/src/utils/assets/typescript.js:232-233 | With the default extensions, the glob is `**/*.{ts,tsx}` |
| OutputSync.MergeDirs | __build__/src/utils/assets/typescript.js:198-199 | Copying a directory with overwrite: source entries win (recursively for directories), and other target entries are kept |
| OutputSync.SyncSuccess | __build__/src/utils/assets/typescript.js:186-212 | On success, every top-level temp item is in the library as copied, and every other library entry is unchanged |
| OutputSync.SyncLeavesOthers | __build__/src/utils/assets/typescript.js:186-219 | Even on failure, library entries absent from the temp directory are untouched |
| OutputSync.SyncDevSameAsProduction | __build__/src/utils/assets/typescript.js:200-207 | When both modes succeed, the dev-mode companion `.map` copy leaves the same library as production |
| OutputSync.DevFailsOnMapDirectory | __build__/src/utils/assets/typescript.js:203-207 | In dev mode, a directory named `X.map` beside file `X` makes the sync fail |
| OutputSync.SyncWithoutTemp | __build__/src/utils/assets/typescript.js:190-191 | Without a temp directory, reading it fails with `ENOENT` |
| OutputSync.BuildDirs.SyncWebpackOutputToLibrary | __build__/src/utils/assets/typescript.js:186-220 | The library becomes the specified result, the error is the specified one, and the temp directory is removed on both paths |
| OutputSync.BuildDirs.CopyOne | __build__/src/utils/assets/typescript.js:194-208 | One listed item: the library becomes what the copy specification gives for that item (a directory merged with overwrite, a file replaced and, in development mode, its source map too), and the error is the one it names; nothing else changes |
| OutputSync.BuildDirs.SingleBuild | __build__/src/utils/assets/typescript.js:131-171 | Rejects iff there is a fatal error or the stats have errors, and then changes nothing; otherwise syncs, and notifies `finalOutputDir/index.umd.js` only after a successful sync with live reload on |

## Left out

- WordPress and Elementor are not modelled. Their constants take the values the code relies on (switcher `switcher`, slider `slider`, tab `content`, control types `text`, `date_time`, `textarea`, `url`, `media`). `apply_filters` callbacks are a function parameter, and hook calls are log entries.
- `file_exists`, `class_exists` and `method_exists` are fixed oracles. A required file does not define new classes. A failing `get_class_instance` is not modelled.
- A `file` or `class` entry that is not a string is treated as unset.
- Object identity is modelled only where the code compares objects (`$manager !== $this`, the singleton registries).
- BasePlugin.Plugin.InitManagers: records only which managers ran `init`, not what their `init` did.
- BaseWidget.Widget.GetStaticFieldsRepeaterControls: each control keeps only its name and type. Labels, defaults, conditions, `esc_html__` and `get_option` defaults are not modelled.
- Trivial getters and output are not modelled: the widget's `get_icon`, `get_categories`, `get_title`, `get_name`, `is_dynamic_content`, `has_widget_inner_wrapper`, `wp_kses_e`, `before_render`, `add_refresh_notice`, and the tab's `get_title`, `get_icon`, `get_group`.
- Preloads.PrefetchMap: the widget's posts are a list, and PHP 8's string-offset `TypeError` is assumed.
- PHP 8 semantics are modelled throughout, although the plugin declares PHP 7.4 as its minimum (Plugin.php:70). Loose comparison follows PHP 8 (BaseWidget.InArray: a non-numeric name equals only itself or `true`), and indexing a string by a non-numeric string throws a `TypeError` (PhpValues.Offset, used by Preloads.PrefetchMap and TabsManager.Tabs.GetTabsLiveControls). Under PHP 7.4 an integer `0` among the selected fields would select every control, and `"abc"['x']` would warn and yield `"a"`.
- Floats are not modelled; JavaScript numbers are integers.
- BuildConfig.ReplaceAtEnd: only `.` is treated as a regular-expression metacharacter of the extension (matching any character but `\n`, `\r`, U+2028 and U+2029), and special replacement patterns are not modelled.
- BuildConfig.Resolve: `path.join` and `path.resolve` do not normalise the path here.
- BuildConfig.EntryPoint: `getConfigValue` becomes an optional value plus its default.
- OutputSync.BuildDirs.SyncWebpackOutputToLibrary: a failing recursive `fs.copy` either copies the whole item or nothing. Symlinks and `ensureDir` on an existing file are not modelled.
- OutputSync.BuildDirs.SingleBuild: `handleBuildComplete` is not awaited in the source, so the order of resolving and syncing is not modelled.
- ManagersBase.BaseManager.InitProperty, ManagersBase.BaseManager.InitArrayProperty: the names `managers` and `require_files` are excluded, because those fields hold an object map and a file list in this model, not a PHP value; in PHP an `args` entry with such a name would replace them.
- PluginManager.Manager.InitProperty, PluginManager.Manager.InitArrayProperty: the name `managers` is excluded, for the same reason.
- BasePlugin.Plugin.AddManagers: `get_manager_instance` always builds the manager with `(args, config, strings)`. The `ReflectionException` fallback is not modelled: a class without a constructor is built with no arguments there, and a missing class ends in a fatal `Error`. BasePlugin.ManagerSlots and BasePlugin.ManagerSlotsLookup share this gap.
- BuildConfig.ModeSettingsFor, BuildConfig.ModeSettingsIff: these describe the built-in part of the webpack configuration only. `...ts.webpackOptions` is spread after it and can override `mode`, `devtool` and `optimization`, and that merge is not modelled.
- JsValues.Put: a new key always goes last. JavaScript puts integer-like keys such as `"0"` or `"12"` first, in ascending order, so objects with such keys have a different key order in the model.
- Dedup.Unique: values are compared structurally. `new Set` compares objects by identity, which differs only when a `condition` or `value` is an object.
- TabsManager.Tabs.GetTabsLiveControls: a class's `EDITOR_CHANGE_CALLBACK_CONTROLS` array is a list of strings (Host.LiveConst's `ListConst`). An array with string keys or non-string entries is not represented; for those, `array_merge` would overwrite by key and `array_unique` would compare values as strings. The keys that `array_unique` keeps (Tabs.php:92), with the gaps left by removed duplicates, are not modelled: the result is a list renumbered from zero, because the only caller, `add_tab_live_settings` (Tabs.php:75), renumbers it through `array_merge`.
- webpack, TerserPlugin, BannerPlugin, chokidar and the debounce timer are not modelled, nor the watcher beyond its glob.
- A reconciliation with an absent temp directory is not a no-op: the code's `readdir` throws `ENOENT`, and the model follows the code.
- The editor's DOM relays, the legacy copies, generated bundles, `Plugin.php` bootstrap checks, `Managers/Editor.php`, `Widgets/BaseSkin.php` and `Containers/ManagersContainer.php` are glue with nothing to state, and are not part of this model.

## Findings

| source | as written | input that shows it | evidently intended | confidence | as-written member | corrected member |
|---|---|---|---|---|---|---|
| src/php/Plugins/BasePlugin.php:72-84 | `instance()` constructs the plugin, whose `init_properties` reads `self::$ajax_url`, before setting `$ajax_url` | The first plugin ever instantiated: its `args['ajax_url']` is null | Set the AJAX URL before constructing, so every plugin's `args` carry it | not executed | BasePlugin.FirstPluginHasNoAjaxUrl | BasePlugin.Registry.InstanceAjaxFirst |
| src/js/editor/utilities.js:122-142 | `extractFromObject` follows only a truthy `value` of a value object, while `processComplexValue` (lines 15-45) reads every sub-mapping of it | Settings map `{size: {value: {value: 'size_setting', unit: 'unit_setting'}}}`: `unit_setting` is read but not listed as live | List every setting the conversion reads, so a change to any of them is noticed | not executed | EditorUtilities.LiveSettingsAsWrittenMissesKey | EditorUtilities.ConvertSettingsReadsOnlyLiveSettings |
