/**
 * The pure part of the TypeScript build script: where the entry point and
 * the tsconfig file are taken from, where webpack writes its temporary
 * output, the settings that depend on the development mode, and the glob
 * the watcher uses. A configuration value is `None` when the project
 * configuration leaves it undefined, in which case the default applies.
 */
module BuildConfig {
  import opened Wrappers
  import opened Text

  /** POSIX `path.isAbsolute`. */
  predicate IsAbsolute(p: string) {
    |p| > 0 && p[0] == '/'
  }

  /** `path.join(a, b)` for a relative `b`, without normalisation. */
  function PathJoin(a: string, b: string): (r: string)
    ensures StartsWith(r, a) && r[|a|..] == "/" + b
  {
    a + "/" + b
  }

  /** `getWebpackTempOutputDir(config)`. */
  function TempOutputDir(root: string): (r: string)
    ensures r == root + "/__build__/temp_webpack_build"
  {
    PathJoin(PathJoin(root, "__build__"), "temp_webpack_build")
  }

  /** One character of a regular expression built from a literal: `.` matches any character but a line terminator. */
  predicate CharMatches(p: char, c: char) {
    (p == '.' && !IsLineTerminator(c)) || p == c
  }

  /** The characters a regular expression's `.` does not match without the `s` flag. */
  predicate IsLineTerminator(c: char) {
    c == '\n' || c == '\r' || c == '\U{2028}' || c == '\U{2029}'
  }

  /** The pattern, read as a regular expression without other metacharacters, matches all of `w`. */
  predicate PatternMatches(pattern: string, w: string) {
    |pattern| == |w| && forall i :: 0 <= i < |w| ==> CharMatches(pattern[i], w[i])
  }

  /**
   * `s.replace(new RegExp(pattern + '$'), repl)`: with a fixed-length
   * pattern anchored at the end, the only place a match can start is
   * `|s| - |pattern|`.
   */
  function ReplaceAtEnd(s: string, pattern: string, repl: string): string {
    if |pattern| <= |s| && PatternMatches(pattern, s[|s| - |pattern|..]) then s[..|s| - |pattern|] + repl
    else s
  }

  /** JavaScript truthiness of an optional string: defined and non-empty. */
  predicate TruthyStr(v: Option<string>) {
    v.Some? && v.value != ""
  }

  const DefaultEntry := "./src/js/index.js"
  const DefaultJsExtension := ".js"
  const DefaultTsExtension := ".ts"
  const DefaultTsconfigPath := "tsconfig.json"

  /** The entry point: `ts.entry` when truthy, else `entry` with its trailing JavaScript extension swapped for the TypeScript one. */
  function EntryPoint(tsEntry: Option<string>, entry: Option<string>, jsExtension: Option<string>, tsExtension: Option<string>): string {
    if TruthyStr(tsEntry) then tsEntry.value
    else ReplaceAtEnd(entry.GetOr(DefaultEntry), jsExtension.GetOr(DefaultJsExtension), tsExtension.GetOr(DefaultTsExtension))
  }

  /**
   * A truthy `ts.entry` wins; otherwise an entry ending in the JavaScript
   * extension gets the TypeScript one in its place, and any other entry is
   * kept as it is.
   */
  lemma EntryPointCases(tsEntry: Option<string>, entry: string, js: string, ts: string)
    ensures TruthyStr(tsEntry) ==> EntryPoint(tsEntry, Some(entry), Some(js), Some(ts)) == tsEntry.value
    ensures !TruthyStr(tsEntry) && |js| <= |entry| && entry[|entry| - |js|..] == js ==>
      EntryPoint(tsEntry, Some(entry), Some(js), Some(ts)) == entry[..|entry| - |js|] + ts
    ensures !TruthyStr(tsEntry) && !(|js| <= |entry| && PatternMatches(js, entry[|entry| - |js|..])) ==>
      EntryPoint(tsEntry, Some(entry), Some(js), Some(ts)) == entry
  {
  }

  /** Swapping the extension of an entry that ends with it gives an entry ending with the new one, with the same stem. */
  lemma ReplaceAtEndSwapsExtension(stem: string, js: string, ts: string)
    ensures ReplaceAtEnd(stem + js, js, ts) == stem + ts
  {
    var s := stem + js;
    assert s[|s| - |js|..] == js;
    assert s[..|s| - |js|] == stem;
  }

  /** Only the end of the entry is rewritten: an extension that occurs earlier is left in place. */
  lemma ReplaceAtEndOnlyAtEnd()
    ensures ReplaceAtEnd("./a.js/b.tsx", ".js", ".ts") == "./a.js/b.tsx"
  {
    var s := "./a.js/b.tsx";
    assert s[|s| - 3..] == "tsx";
    assert !CharMatches('.', 't') || !CharMatches('j', 's');
    assert !PatternMatches(".js", s[|s| - 3..]) by {
      assert !CharMatches(".js"[1], s[|s| - 3..][1]);
    }
  }

  /** The dot of the extension is not escaped: an entry ending in `_js` is rewritten too. */
  lemma ReplaceAtEndDotUnescaped()
    ensures ReplaceAtEnd("./src/app_js", ".js", ".ts") == "./src/app.ts"
  {
    var s := "./src/app_js";
    assert s[|s| - 3..] == "_js";
    assert PatternMatches(".js", "_js");
    assert s[..|s| - 3] == "./src/app";
  }

  /** A line terminator is the one character the unescaped `.` does not match. */
  lemma ReplaceAtEndDotSkipsLineTerminator()
    ensures ReplaceAtEnd("./src/app\njs", ".js", ".ts") == "./src/app\njs"
  {
    var s := "./src/app\njs";
    assert s[|s| - 3..] == "\njs";
    assert !PatternMatches(".js", s[|s| - 3..]) by {
      assert !CharMatches(".js"[0], s[|s| - 3..][0]);
    }
  }

  /** With every value left undefined the entry is `./src/js/index.ts`, under the project root. */
  lemma DefaultEntryPoint(root: string)
    ensures EntryPoint(None, None, None, None) == "./src/js/index.ts"
    ensures EntryPointPath(root, None, None, None, None) == root + "/./src/js/index.ts"
  {
    ReplaceAtEndSwapsExtension("./src/js/index", ".js", ".ts");
    assert DefaultEntry == "./src/js/index" + ".js";
  }

  /** A path taken as it is when absolute, under the project root otherwise (`path.resolve`, without normalisation). */
  function Resolve(root: string, p: string): string {
    if IsAbsolute(p) then p else PathJoin(root, p)
  }

  /** The entry point's path, resolved against the project root. */
  function EntryPointPath(root: string, tsEntry: Option<string>, entry: Option<string>, jsExtension: Option<string>, tsExtension: Option<string>): string {
    Resolve(root, EntryPoint(tsEntry, entry, jsExtension, tsExtension))
  }

  /** The tsconfig path: used as it is when absolute, joined to the project root otherwise. */
  function TsconfigFullPath(root: string, tsconfigPath: Option<string>): string {
    Resolve(root, tsconfigPath.GetOr(DefaultTsconfigPath))
  }

  /** The ts-loader options: `configFile` only when the tsconfig file exists (`existing` stands for `fs.pathExists`). */
  function LoaderConfigFile(root: string, tsconfigPath: Option<string>, existing: set<string>): (r: Option<string>)
    ensures r.Some? <==> TsconfigFullPath(root, tsconfigPath) in existing
    ensures r.Some? ==> r.value == TsconfigFullPath(root, tsconfigPath)
  {
    var full := TsconfigFullPath(root, tsconfigPath);
    if full in existing then Some(full) else None
  }

  /** An absolute tsconfig path is kept; a relative one lands under the root. */
  lemma TsconfigFullPathCases(root: string, p: string)
    ensures IsAbsolute(p) ==> TsconfigFullPath(root, Some(p)) == p
    ensures !IsAbsolute(p) ==> TsconfigFullPath(root, Some(p)) == root + "/" + p
    ensures TsconfigFullPath(root, None) == root + "/tsconfig.json"
  {
    assert !IsAbsolute(DefaultTsconfigPath);
  }

  /** The settings of the webpack configuration that follow the development mode. */
  datatype ModeSettings = ModeSettings(mode: string, devtool: Option<string>, minimize: bool, dropConsole: bool)

  function ModeSettingsFor(isDev: bool): ModeSettings {
    if isDev then ModeSettings("development", Some("source-map"), false, false)
    else ModeSettings("production", None, true, true)
  }

  /** Development mode holds exactly when the mode is `development`, there is a source map, and neither minification nor console dropping is on. */
  lemma ModeSettingsIff(isDev: bool)
    ensures var m := ModeSettingsFor(isDev);
      (m.mode == "development" <==> isDev) &&
      (m.devtool == Some("source-map") <==> isDev) &&
      (m.minimize <==> !isDev) && (m.dropConsole <==> !isDev) &&
      (!isDev ==> m.mode == "production" && m.devtool.None?)
  {
  }

  /** `ext.substring(1)`: the extension without its first character. */
  function DropFirst(ext: string): (r: string)
    ensures ext != "" ==> [ext[0]] + r == ext
  {
    if ext == "" then "" else ext[1..]
  }

  function MapDropFirst(exts: seq<string>): (r: seq<string>)
    ensures |r| == |exts| && forall i :: 0 <= i < |exts| ==> r[i] == DropFirst(exts[i])
  {
    if exts == [] then [] else [DropFirst(exts[0])] + MapDropFirst(exts[1..])
  }

  const DefaultWatchExtensions := [".ts", ".tsx"]

  // The watcher's file pattern: `**/*.{` and the extensions, each without its first character, joined by commas, then `}`.
  function WatchGlob(exts: seq<string>): string {
    "**/*.{" + Join(",", MapDropFirst(exts)) + "}"
  }

  /**
   * The glob is the fixed prefix and suffix around the shortened
   * extensions joined by commas, and splitting its inner part at the
   * commas gives every shortened extension back, in order, when none of
   * them holds a comma.
   */
  lemma WatchGlobParts(exts: seq<string>)
    requires exts != []
    requires forall e :: e in exts ==> ',' !in e
    ensures var g := WatchGlob(exts);
      StartsWith(g, "**/*.{") && g[|g| - 1] == '}' &&
      Split(g[6..|g| - 1], ',') == MapDropFirst(exts)
  {
    var parts := MapDropFirst(exts);
    forall p | p in parts
      ensures ',' !in p
    {
      var i :| 0 <= i < |parts| && parts[i] == p;
      assert exts[i] in exts;
      if exts[i] != "" {
        assert [exts[i][0]] + p == exts[i];
        assert forall c :: c in p ==> c in exts[i];
      }
    }
    var g := WatchGlob(exts);
    var inner := Join(",", parts);
    assert g == "**/*.{" + inner + "}";
    assert g[6..|g| - 1] == inner;
    SplitJoin(parts, ',');
  }

  // With the default extensions the glob is `**/*.{ts,tsx}`.
  lemma DefaultWatchGlob()
    ensures WatchGlob(DefaultWatchExtensions) == "**/*.{ts,tsx}"
  {
    assert MapDropFirst(DefaultWatchExtensions) == ["ts", "tsx"];
  }
}
