/**
 * `Plugins\BaseManager`, the base class of a plugin's managers: the
 * plugin's directory path, URL and AJAX URL taken from the common
 * arguments, the manager's configuration and strings, the wiring to the
 * other managers and property initialisation from the configuration.
 */
module PluginManager {
  import opened Wrappers
  import opened PhpValues
  import opened ManagerWiring

  /** A step of `init()`. */
  datatype InitStep = InitPropertiesStep | AddManagersStep

  /** The value `args[key]` gives a field the constructor sets, or null (the field's default) when unset. */
  function ArgOrNull(args: PhpVal, key: string): (r: PhpVal)
    ensures IsSetOn(args, key) ==> r == Lookup(args.entries, StrKey(key)).value && r != PNull
    ensures !IsSetOn(args, key) ==> r == PNull
  {
    if IsSetOn(args, key) then Index(args.entries, StrKey(key)) else PNull
  }

  class Manager {
    var args: PhpVal
    var config: PhpVal
    var strings: PhpVal
    /** `$this->managers`: unset until `add_managers` runs. */
    var managers: Option<map<string, object>>
    var pluginDirPath: PhpVal
    var pluginDirUrl: PhpVal
    var pluginAjaxUrl: PhpVal
    /** The dynamic properties `init_property` and `init_array_property` create: names the class does not declare. */
    var properties: map<string, PhpVal>
    /** The steps of `init()` run so far. */
    var steps: seq<InitStep>

    /**
     * `__construct($args, $config, $strings)`: the three inputs are stored
     * as given; each of the directory path, URL and AJAX URL is copied from
     * `args` only when set there, and stays null otherwise.
     */
    constructor (args: PhpVal, config: PhpVal, strings: PhpVal)
      ensures this.args == args && this.config == config && this.strings == strings
      ensures pluginDirPath == ArgOrNull(args, "dir_path")
      ensures pluginDirUrl == ArgOrNull(args, "dir_url")
      ensures pluginAjaxUrl == ArgOrNull(args, "ajax_url")
      ensures managers == None && properties == map[] && steps == []
    {
      this.args := args;
      pluginDirPath := PNull;
      pluginDirUrl := PNull;
      pluginAjaxUrl := PNull;
      if IsSetOn(args, "dir_path") {
        pluginDirPath := Index(args.entries, StrKey("dir_path"));
      }
      if IsSetOn(args, "dir_url") {
        pluginDirUrl := Index(args.entries, StrKey("dir_url"));
      }
      if IsSetOn(args, "ajax_url") {
        pluginAjaxUrl := Index(args.entries, StrKey("ajax_url"));
      }
      this.config := config;
      this.strings := strings;
      managers := None;
      properties := map[];
      steps := [];
    }

    /** `add_managers($managers)`. */
    method AddManagers(input: seq<ManagerEntry>)
      modifies this
      ensures managers == Some(Added(old(managers).GetOr(map[]), input, this))
      ensures args == old(args) && config == old(config) && strings == old(strings)
      ensures pluginDirPath == old(pluginDirPath) && pluginDirUrl == old(pluginDirUrl) && pluginAjaxUrl == old(pluginAjaxUrl)
      ensures properties == old(properties) && steps == old(steps)
    {
      if managers.None? {
        managers := Some(map[]);
      }
      var i := 0;
      while i < |input|
        invariant 0 <= i <= |input|
        invariant managers == Some(Added(old(managers).GetOr(map[]), input[..i], this))
        invariant args == old(args) && config == old(config) && strings == old(strings)
        invariant pluginDirPath == old(pluginDirPath) && pluginDirUrl == old(pluginDirUrl) && pluginAjaxUrl == old(pluginAjaxUrl)
        invariant properties == old(properties) && steps == old(steps)
      {
        assert input[..i + 1] == input[..i] + [input[i]];
        AddedAppend(old(managers).GetOr(map[]), input[..i], input[i], this);
        if input[i].manager != this {
          managers := Some(managers.value[input[i].key := input[i].manager]);
        }
        i := i + 1;
      }
      assert input[..i] == input;
    }

    /** `init($managers)`: the properties are initialised before the managers are added. */
    method Init(input: seq<ManagerEntry>)
      modifies this
      ensures steps == old(steps) + [InitPropertiesStep, AddManagersStep]
      ensures managers == Some(Added(old(managers).GetOr(map[]), input, this))
      ensures args == old(args) && config == old(config) && strings == old(strings) && properties == old(properties)
    {
      steps := steps + [InitPropertiesStep];
      steps := steps + [AddManagersStep];
      AddManagers(input);
    }

    /**
     * `$this->$name` for reading: a declared property by its own field,
     * any other name from the dynamic properties, null when never set.
     */
    function Property(name: string): PhpVal
      reads this
    {
      if name == "args" then args
      else if name == "config" then config
      else if name == "strings" then strings
      else if name == "plugin_dir_path" then pluginDirPath
      else if name == "plugin_dir_url" then pluginDirUrl
      else if name == "plugin_ajax_url" then pluginAjaxUrl
      else if name in properties then properties[name]
      else PNull
    }

    /** `$this->$name = v`: a declared property's field is overwritten, any other name becomes a dynamic property. */
    method AssignProperty(name: string, v: PhpVal)
      requires name != "managers"
      modifies this
      ensures Property(name) == v
      ensures forall q :: q != name ==> Property(q) == old(Property(q))
      ensures managers == old(managers) && steps == old(steps)
    {
      if name == "args" {
        args := v;
      } else if name == "config" {
        config := v;
      } else if name == "strings" {
        strings := v;
      } else if name == "plugin_dir_path" {
        pluginDirPath := v;
      } else if name == "plugin_dir_url" {
        pluginDirUrl := v;
      } else if name == "plugin_ajax_url" {
        pluginAjaxUrl := v;
      } else {
        properties := properties[name := v];
      }
    }

    /** `init_property($property)`: copied from `config` when set there and not null. */
    method InitProperty(property: string)
      requires property != "managers"
      modifies this
      ensures IsSetOn(old(config), property) ==> Property(property) == Index(old(config).entries, StrKey(property))
      ensures forall q :: q != property || !IsSetOn(old(config), property) ==> Property(q) == old(Property(q))
      ensures managers == old(managers) && steps == old(steps)
    {
      if IsSetOn(config, property) {
        AssignProperty(property, Index(config.entries, StrKey(property)));
      }
    }

    /** `init_array_property($property)`: copied from `config` only when it is a non-empty array there. */
    method InitArrayProperty(property: string)
      requires property != "managers"
      modifies this
      ensures IsSetOn(old(config), property) && IsNonEmptyArray(Index(old(config).entries, StrKey(property))) ==>
        Property(property) == Index(old(config).entries, StrKey(property))
      ensures forall q :: q != property || !(IsSetOn(old(config), property) && IsNonEmptyArray(Index(old(config).entries, StrKey(property)))) ==>
        Property(q) == old(Property(q))
      ensures managers == old(managers) && steps == old(steps)
    {
      if IsSetOn(config, property) && IsNonEmptyArray(Index(config.entries, StrKey(property))) {
        AssignProperty(property, Index(config.entries, StrKey(property)));
      }
    }
  }
}
