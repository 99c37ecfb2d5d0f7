/**
 * `Managers\BaseManager`, the base class of the Elementor-side managers
 * (tabs, categories, widgets): arguments and strings kept verbatim, the
 * wiring to the other managers, property initialisation from `args`, and
 * the manual loading of the files a manager needs.
 */
module ManagersBase {
  import opened Wrappers
  import opened PhpValues
  import opened ManagerWiring
  import opened Host

  /** A step of `init()`. */
  datatype InitStep = ApplyFiltersStep | AddManagersStep

  /** The files of `files` that exist, in order. */
  function ExistingFiles(files: seq<string>, existing: set<string>): seq<string> {
    if files == [] then []
    else (if files[0] in existing then [files[0]] else []) + ExistingFiles(files[1..], existing)
  }

  lemma {:induction false} ExistingFilesAppend(xs: seq<string>, ys: seq<string>, existing: set<string>)
    ensures ExistingFiles(xs + ys, existing) == ExistingFiles(xs, existing) + ExistingFiles(ys, existing)
  {
    if xs == [] {
      assert xs + ys == ys;
    } else {
      var zs := xs + ys;
      assert zs[0] == xs[0] && zs[1..] == xs[1..] + ys;
      ExistingFilesAppend(xs[1..], ys, existing);
      ConcatAssoc(if xs[0] in existing then [xs[0]] else [], ExistingFiles(xs[1..], existing), ExistingFiles(ys, existing));
    }
  }

  /** The files `require_files` loads are exactly the listed files that exist. */
  lemma {:induction false} ExistingFilesMembers(files: seq<string>, existing: set<string>)
    ensures forall f :: f in ExistingFiles(files, existing) <==> f in files && f in existing
  {
    if files != [] {
      ExistingFilesMembers(files[1..], existing);
      assert forall f :: f in files <==> f == files[0] || f in files[1..];
    }
  }

  class BaseManager {
    var args: PhpVal
    var strings: PhpVal
    /** `$this->managers`: unset until `add_managers` runs. */
    var managers: Option<map<string, object>>
    /** The dynamic properties `init_property` and `init_array_property` create: names the class does not declare. */
    var properties: map<string, PhpVal>
    /** `$this->require_files`, which a concrete manager overrides. */
    const requireFiles: seq<string>
    /** The steps of `init()` run so far. */
    var steps: seq<InitStep>

    /** `__construct($args, $strings)`: both stored as given. */
    constructor (args: PhpVal, strings: PhpVal, requireFiles: seq<string>)
      ensures this.args == args && this.strings == strings && this.requireFiles == requireFiles
      ensures managers == None && properties == map[] && steps == []
    {
      this.args := args;
      this.strings := strings;
      this.requireFiles := requireFiles;
      managers := None;
      properties := map[];
      steps := [];
    }

    /** `require_files()`: every listed file that exists is loaded, nothing else happens. */
    method RequireFiles(host: Host)
      modifies host
      ensures host.required == old(host.required) + (set f | f in ExistingFiles(requireFiles, host.files))
      ensures host.log == old(host.log)
    {
      if requireFiles == [] {
        return;
      }
      var i := 0;
      while i < |requireFiles|
        invariant 0 <= i <= |requireFiles|
        invariant host.required == old(host.required) + (set f | f in ExistingFiles(requireFiles[..i], host.files))
        invariant host.log == old(host.log)
      {
        assert requireFiles[..i + 1] == requireFiles[..i] + [requireFiles[i]];
        ExistingFilesAppend(requireFiles[..i], [requireFiles[i]], host.files);
        host.RequireIfExists(requireFiles[i]);
        i := i + 1;
      }
      assert requireFiles[..i] == requireFiles;
    }

    /**
     * `add_managers($managers)`: `owner` is the object `$this` stands for,
     * the concrete manager whose base state this is, which is left out.
     */
    method AddManagers(input: seq<ManagerEntry>, owner: object)
      modifies this
      ensures managers == Some(Added(old(managers).GetOr(map[]), input, owner))
      ensures args == old(args) && strings == old(strings) && properties == old(properties) && steps == old(steps)
    {
      if managers.None? {
        managers := Some(map[]);
      }
      var i := 0;
      while i < |input|
        invariant 0 <= i <= |input|
        invariant managers == Some(Added(old(managers).GetOr(map[]), input[..i], owner))
        invariant args == old(args) && strings == old(strings) && properties == old(properties) && steps == old(steps)
      {
        assert input[..i + 1] == input[..i] + [input[i]];
        AddedAppend(old(managers).GetOr(map[]), input[..i], input[i], owner);
        if input[i].manager != owner {
          managers := Some(managers.value[input[i].key := input[i].manager]);
        }
        i := i + 1;
      }
      assert input[..i] == input;
    }

    /** `init($managers)`: the filters are applied before the managers are added. */
    method Init(input: seq<ManagerEntry>, owner: object)
      modifies this
      ensures steps == old(steps) + [ApplyFiltersStep, AddManagersStep]
      ensures managers == Some(Added(old(managers).GetOr(map[]), input, owner))
      ensures args == old(args) && strings == old(strings) && properties == old(properties)
    {
      steps := steps + [ApplyFiltersStep];
      steps := steps + [AddManagersStep];
      AddManagers(input, owner);
    }

    /**
     * `$this->$name` for reading: a declared property by its own field,
     * any other name from the dynamic properties, null when never set.
     */
    function Property(name: string): PhpVal
      reads this
    {
      if name == "args" then args
      else if name == "strings" then strings
      else if name in properties then properties[name]
      else PNull
    }

    /** `$this->$name = v`: a declared property's field is overwritten, any other name becomes a dynamic property. */
    method AssignProperty(name: string, v: PhpVal)
      requires name != "managers" && name != "require_files"
      modifies this
      ensures Property(name) == v
      ensures forall q :: q != name ==> Property(q) == old(Property(q))
      ensures managers == old(managers) && steps == old(steps)
    {
      if name == "args" {
        args := v;
      } else if name == "strings" {
        strings := v;
      } else {
        properties := properties[name := v];
      }
    }

    /** `init_property($property)`: copied from `args` when set there and not null. */
    method InitProperty(property: string)
      requires property != "managers" && property != "require_files"
      modifies this
      ensures IsSetOn(old(args), property) ==> Property(property) == Index(old(args).entries, StrKey(property))
      ensures forall q :: q != property || !IsSetOn(old(args), property) ==> Property(q) == old(Property(q))
      ensures managers == old(managers) && steps == old(steps)
    {
      if IsSetOn(args, property) {
        AssignProperty(property, Index(args.entries, StrKey(property)));
      }
    }

    /** `init_array_property($property)`: copied from `args` only when it is a non-empty array there. */
    method InitArrayProperty(property: string)
      requires property != "managers" && property != "require_files"
      modifies this
      ensures IsSetOn(old(args), property) && IsNonEmptyArray(Index(old(args).entries, StrKey(property))) ==>
        Property(property) == Index(old(args).entries, StrKey(property))
      ensures forall q :: q != property || !(IsSetOn(old(args), property) && IsNonEmptyArray(Index(old(args).entries, StrKey(property)))) ==>
        Property(q) == old(Property(q))
      ensures managers == old(managers) && steps == old(steps)
    {
      if IsSetOn(args, property) && IsNonEmptyArray(Index(args.entries, StrKey(property))) {
        AssignProperty(property, Index(args.entries, StrKey(property)));
      }
    }
  }
}
