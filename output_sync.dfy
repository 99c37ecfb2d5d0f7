/**
 * `syncWebpackOutputToLibrary` and the end of a single build: webpack's
 * temporary output directory is copied into the library directory, item by
 * item in the order the directory listing gives, and then removed.
 * Directories are modelled in memory, as maps from names to files and
 * subdirectories.
 */
module OutputSync {
  import opened Wrappers
  import opened Dedup
  import opened BuildConfig

  datatype Entry = File(content: string) | Dir(children: map<string, Entry>)

  /** `fs.copyFile` with a directory on either side. */
  const IsDirError := FsError("EISDIR")
  /** `fs.copy` of a directory onto a file, at any depth. */
  const NotDirError := FsError("ENOTDIR")
  /** `fs.readdir` of a missing directory. */
  const NoEntryError := FsError("ENOENT")

  /** `fs.copy(s, t, { overwrite: true })` can copy the tree `s` onto the existing `t`: no directory meets a file. */
  predicate Compatible(t: Entry, s: Entry) {
    match s
    case File(_) => t.File?
    case Dir(m) => t.Dir? && forall k :: k in m && k in t.children ==> Compatible(t.children[k], m[k])
  }

  /** The tree `fs.copy` leaves: the source's files overwrite, its directories merge, and the target's other entries stay. */
  function Merge(t: Entry, s: Entry): Entry
    decreases s
  {
    match s
    case File(_) => s
    case Dir(m) =>
      if t.File? then s
      else Dir(map k | k in m.Keys + t.children.Keys ::
        if k in m then (if k in t.children then Merge(t.children[k], m[k]) else m[k]) else t.children[k])
  }

  /**
   * After a merge of two directories every source name is present, source
   * files replace what was there, and target entries the source does not
   * name are kept as they were.
   */
  lemma MergeDirs(t: Entry, s: Entry)
    requires t.Dir? && s.Dir?
    ensures var r := Merge(t, s);
      r.Dir? && r.children.Keys == s.children.Keys + t.children.Keys &&
      (forall k :: k in s.children && s.children[k].File? ==> r.children[k] == s.children[k]) &&
      (forall k :: k in s.children && k !in t.children ==> r.children[k] == s.children[k]) &&
      (forall k :: k in t.children && k !in s.children ==> r.children[k] == t.children[k])
  {
  }

  /** Merging into an empty directory copies the source as it is. */
  lemma MergeIntoEmpty(s: Entry)
    requires s.Dir?
    ensures Merge(Dir(map[]), s) == s
  {
    assert Merge(Dir(map[]), s).children == s.children;
  }

  /** The library after some items, and the error that stopped the copy, if any. */
  datatype Progress = Progress(target: map<string, Entry>, error: Option<Error>)

  /** The companion source map of a file. */
  function MapName(item: string): string {
    item + ".map"
  }

  /** One item of the loop: a directory is copied with overwrite, a file is copied and, in development mode, so is its `.map` companion. */
  function CopyItem(temp: map<string, Entry>, target: map<string, Entry>, item: string, isDev: bool): Progress
    requires item in temp
  {
    var src := temp[item];
    if src.Dir? then
      if item in target && !Compatible(target[item], src) then Progress(target, Some(NotDirError))
      else Progress(target[item := if item in target then Merge(target[item], src) else src], None)
    else if item in target && target[item].Dir? then Progress(target, Some(IsDirError))
    else
      var copied := target[item := src];
      var c := MapName(item);
      if isDev && c in temp then
        if temp[c].Dir? || (c in copied && copied[c].Dir?) then Progress(copied, Some(IsDirError))
        else Progress(copied[c := temp[c]], None)
      else Progress(copied, None)
  }

  /** The loop over the listed items, stopping at the first error. */
  function CopyItems(temp: map<string, Entry>, target: map<string, Entry>, items: seq<string>, isDev: bool): Progress
    requires forall x :: x in items ==> x in temp
    decreases |items|
  {
    if items == [] then Progress(target, None)
    else
      var step := CopyItem(temp, target, items[0], isDev);
      if step.error.Some? then step else CopyItems(temp, step.target, items[1..], isDev)
  }

  /** The whole sync: the library is created if missing, then the temporary directory is listed and copied. */
  function SyncSpec(temp: Option<map<string, Entry>>, library: Option<map<string, Entry>>, listing: seq<string>, isDev: bool): Progress
    requires temp.Some? ==> forall x :: x in listing ==> x in temp.value
  {
    var base := library.GetOr(map[]);
    if temp.None? then Progress(base, Some(NoEntryError))
    else CopyItems(temp.value, base, listing, isDev)
  }

  /** What an item of the temporary directory becomes in the library when the sync succeeds. */
  function Copied(base: map<string, Entry>, temp: map<string, Entry>, n: string): Entry
    requires n in temp
  {
    if temp[n].Dir? && n in base then Merge(base[n], temp[n]) else temp[n]
  }

  /** The listing names every item of the directory exactly once. */
  predicate IsListing(listing: seq<string>, dir: map<string, Entry>) {
    NoDuplicates(listing) && (forall n :: n in listing ==> n in dir) && (forall n :: n in dir ==> n in listing)
  }

  /** Names outside the temporary directory are never written, whether the copy succeeds or not. */
  lemma {:induction false} CopyItemsFrame(temp: map<string, Entry>, target: map<string, Entry>, items: seq<string>, isDev: bool, n: string)
    requires forall x :: x in items ==> x in temp
    requires n !in temp
    ensures var r := CopyItems(temp, target, items, isDev);
      (n in r.target <==> n in target) && (n in target ==> r.target[n] == target[n])
    decreases |items|
  {
    if items != [] {
      var step := CopyItem(temp, target, items[0], isDev);
      if step.error.None? {
        CopyItemsFrame(temp, step.target, items[1..], isDev, n);
      }
    }
  }

  /**
   * A name that is not among the items still to copy keeps its value
   * through a successful copy, when it is a source file already copied or
   * a source directory: a later companion write gives a file the same
   * content, and fails on a directory.
   */
  lemma {:induction false} CopyItemsKeeps(temp: map<string, Entry>, target: map<string, Entry>, items: seq<string>, isDev: bool, n: string)
    requires forall x :: x in items ==> x in temp
    requires n in temp && n !in items && n in target
    requires temp[n].Dir? || target[n] == temp[n]
    ensures var r := CopyItems(temp, target, items, isDev);
      r.error.None? ==> n in r.target && r.target[n] == target[n]
    decreases |items|
  {
    if items != [] {
      var step := CopyItem(temp, target, items[0], isDev);
      if step.error.None? {
        assert items[0] != n;
        assert n in step.target && step.target[n] == target[n];
        CopyItemsKeeps(temp, step.target, items[1..], isDev, n);
      }
    }
  }

  /** A successful copy leaves each listed item as `Copied` says, measured against the library before the copy. */
  lemma {:induction false} CopyItemsSuccess(temp: map<string, Entry>, target: map<string, Entry>, items: seq<string>, isDev: bool)
    requires forall x :: x in items ==> x in temp
    requires NoDuplicates(items)
    ensures var r := CopyItems(temp, target, items, isDev);
      r.error.None? ==> forall n :: n in items ==> n in r.target && r.target[n] == Copied(target, temp, n)
    decreases |items|
  {
    if items != [] {
      var x := items[0];
      var rest := items[1..];
      var step := CopyItem(temp, target, x, isDev);
      if step.error.None? {
        var r := CopyItems(temp, step.target, rest, isDev);
        CopyItemsSuccess(temp, step.target, rest, isDev);
        assert NoDuplicates(items);
        assert x !in rest;
        assert x in step.target && step.target[x] == Copied(target, temp, x) by {
          assert MapName(x) != x by { assert |MapName(x)| == |x| + 4; }
        }
        CopyItemsKeeps(temp, step.target, rest, isDev, x);
        if r.error.None? {
          forall n | n in rest
            ensures n in r.target && r.target[n] == Copied(target, temp, n)
          {
            assert n != x;
            if temp[n].Dir? {
              assert (n in step.target <==> n in target) && (n in target ==> step.target[n] == target[n]);
            }
          }
        }
      }
    }
  }

  /**
   * A sync that succeeds leaves every item of the temporary directory in
   * the library, files with the source content and directories merged
   * over what was there; every other library entry is unchanged.
   */
  lemma SyncSuccess(temp: map<string, Entry>, library: Option<map<string, Entry>>, listing: seq<string>, isDev: bool)
    requires IsListing(listing, temp)
    ensures var r := SyncSpec(Some(temp), library, listing, isDev);
      var base := library.GetOr(map[]);
      r.error.None? ==>
        (forall n :: n in temp ==> n in r.target && r.target[n] == Copied(base, temp, n)) &&
        (forall n :: n !in temp ==> (n in r.target <==> n in base) && (n in base ==> r.target[n] == base[n]))
  {
    var base := library.GetOr(map[]);
    CopyItemsSuccess(temp, base, listing, isDev);
    forall n | n !in temp
      ensures var r := CopyItems(temp, base, listing, isDev);
        (n in r.target <==> n in base) && (n in base ==> r.target[n] == base[n])
    {
      CopyItemsFrame(temp, base, listing, isDev, n);
    }
  }

  /** Entries absent from the temporary directory stay untouched even when the sync fails part-way. */
  lemma SyncLeavesOthers(temp: Option<map<string, Entry>>, library: Option<map<string, Entry>>, listing: seq<string>, isDev: bool, n: string)
    requires temp.Some? ==> IsListing(listing, temp.value)
    requires temp.None? || n !in temp.value
    ensures var r := SyncSpec(temp, library, listing, isDev);
      var base := library.GetOr(map[]);
      (n in r.target <==> n in base) && (n in base ==> r.target[n] == base[n])
  {
    if temp.Some? {
      CopyItemsFrame(temp.value, library.GetOr(map[]), listing, isDev, n);
    }
  }

  /**
   * The companion copy of development mode writes what the top-level copy
   * of `X.map` writes anyway: when both modes succeed, the library is the same.
   */
  lemma SyncDevSameAsProduction(temp: map<string, Entry>, library: Option<map<string, Entry>>, listing: seq<string>)
    requires IsListing(listing, temp)
    ensures var dev := SyncSpec(Some(temp), library, listing, true);
      var prod := SyncSpec(Some(temp), library, listing, false);
      dev.error.None? && prod.error.None? ==> dev.target == prod.target
  {
    var dev := SyncSpec(Some(temp), library, listing, true);
    var prod := SyncSpec(Some(temp), library, listing, false);
    SyncSuccess(temp, library, listing, true);
    SyncSuccess(temp, library, listing, false);
    if dev.error.None? && prod.error.None? {
      assert dev.target.Keys == prod.target.Keys;
    }
  }

  /** Without a temporary directory the sync fails at the listing, after creating an empty library if there was none. */
  lemma SyncWithoutTemp(library: Option<map<string, Entry>>, listing: seq<string>, isDev: bool)
    ensures SyncSpec(None, library, listing, isDev) == Progress(library.GetOr(map[]), Some(NoEntryError))
  {
  }

  /** A directory in place of a file's companion source map fails the development sync only. */
  lemma DevFailsOnMapDirectory()
    ensures var temp := map["index.umd.js" := File("code"), "index.umd.js.map" := Dir(map[])];
      SyncSpec(Some(temp), None, ["index.umd.js", "index.umd.js.map"], true).error == Some(IsDirError) &&
      SyncSpec(Some(temp), None, ["index.umd.js", "index.umd.js.map"], false).error == None
  {
    var temp := map["index.umd.js" := File("code"), "index.umd.js.map" := Dir(map[])];
    assert MapName("index.umd.js") == "index.umd.js.map";
    assert "index.umd.js" != "index.umd.js.map";
    var items := ["index.umd.js", "index.umd.js.map"];
    assert items[1..] == ["index.umd.js.map"] && items[1..][1..] == [];
    var afterFirst := map["index.umd.js" := File("code")];
    assert CopyItem(temp, map[], "index.umd.js", false) == Progress(afterFirst, None);
    assert "index.umd.js.map" !in afterFirst;
  }

  /** The directories the build works on, the file under the temporary directory and the library directory, and the live-reload notifications. */
  class BuildDirs {
    /** The temporary output directory, `None` when it does not exist. */
    var temp: Option<map<string, Entry>>
    /** The library directory, `None` until it is created. */
    var library: Option<map<string, Entry>>
    /** The paths passed to the live-reload server's `notifyChange`, in order. */
    var notified: seq<string>

    constructor (temp: Option<map<string, Entry>>, library: Option<map<string, Entry>>)
      ensures this.temp == temp && this.library == library && notified == []
    {
      this.temp := temp;
      this.library := library;
      notified := [];
    }

    /**
     * `syncWebpackOutputToLibrary(temp, library, isDev)`: `listing` is the
     * order `fs.readdir` gives. The temporary directory is removed whether
     * the copy succeeds or fails; on failure the library keeps what was
     * copied before the error.
     */
    method SyncWebpackOutputToLibrary(isDev: bool, listing: seq<string>) returns (error: Option<Error>)
      requires temp.Some? ==> IsListing(listing, temp.value)
      modifies this
      ensures temp == None
      ensures library == Some(SyncSpec(old(temp), old(library), listing, isDev).target)
      ensures error == SyncSpec(old(temp), old(library), listing, isDev).error
      ensures notified == old(notified)
    {
      if library.None? {
        library := Some(map[]);
      }
      if temp.None? {
        temp := None;
        return Some(NoEntryError);
      }
      var src := temp.value;
      ghost var base := library.value;
      var i := 0;
      while i < |listing|
        invariant 0 <= i <= |listing|
        invariant library.Some? && temp == Some(src) && notified == old(notified)
        invariant CopyItems(src, library.value, listing[i..], isDev) == CopyItems(src, base, listing, isDev)
      {
        assert listing[i..][1..] == listing[i + 1..];
        var stepError := CopyOne(src, listing[i], isDev);
        if stepError.Some? {
          temp := None;
          return stepError;
        }
        i := i + 1;
      }
      assert listing[i..] == [];
      temp := None;
      error := None;
    }

    /** One item of the copy loop, on the library as it stands. */
    method CopyOne(src: map<string, Entry>, item: string, isDev: bool) returns (error: Option<Error>)
      requires library.Some? && item in src
      modifies this
      ensures library == Some(CopyItem(src, old(library.value), item, isDev).target)
      ensures error == CopyItem(src, old(library.value), item, isDev).error
      ensures temp == old(temp) && notified == old(notified)
    {
      var entry := src[item];
      var target := library.value;
      if entry.Dir? {
        if item in target && !Compatible(target[item], entry) {
          return Some(NotDirError);
        }
        library := Some(target[item := if item in target then Merge(target[item], entry) else entry]);
      } else {
        if item in target && target[item].Dir? {
          return Some(IsDirError);
        }
        library := Some(target[item := entry]);
        var mapName := item + ".map";
        if isDev && mapName in src {
          if src[mapName].Dir? || (mapName in library.value && library.value[mapName].Dir?) {
            return Some(IsDirError);
          }
          library := Some(library.value[mapName := src[mapName]]);
        }
      }
      error := None;
    }

    /**
     * A single build once webpack has finished: with no fatal error and no
     * compilation error the output is synced, and the live-reload server,
     * if there is one, is told about `index.umd.js` only after a successful
     * sync; the build is rejected exactly when there was a fatal error or
     * a compilation error, whatever the sync gives.
     */
    method SingleBuild(fatal: bool, hasErrors: bool, isDev: bool, listing: seq<string>, liveReload: bool, finalOutputDir: string)
      returns (rejected: bool)
      requires temp.Some? ==> IsListing(listing, temp.value)
      modifies this
      ensures rejected <==> fatal || hasErrors
      ensures fatal || hasErrors ==> temp == old(temp) && library == old(library) && notified == old(notified)
      ensures !(fatal || hasErrors) ==>
        var r := SyncSpec(old(temp), old(library), listing, isDev);
        temp == None && library == Some(r.target) &&
        notified == old(notified) + (if r.error.None? && liveReload then [finalOutputDir + "/index.umd.js"] else [])
    {
      if !fatal && !hasErrors {
        var syncError := SyncWebpackOutputToLibrary(isDev, listing);
        if syncError.None? && liveReload {
          assert PathJoin(finalOutputDir, "index.umd.js") == finalOutputDir + "/index.umd.js";
          notified := notified + [PathJoin(finalOutputDir, "index.umd.js")];
        }
      }
      rejected := fatal || hasErrors;
    }
  }
}
