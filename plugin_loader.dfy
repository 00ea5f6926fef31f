/**
 * The plugin loader: imports a module, picks the first agent class among
 * the names `dir(module)` lists (imported classes included), registers that class in the global registry under the plugin's
 * name and keeps one instance per loaded plugin.
 *
 * The import is a parameter: what `importlib.import_module` produced, as
 * the members `dir(module)` lists, in that (alphabetical) order.
 */
module PluginLoader {
  import opened PyValues
  import opened BaseAgent
  import opened Registry

  /** What a module attribute is, as far as the loader asks. */
  datatype MemberKind =
    | NotAClass                  // a function, a constant, a submodule ...
    | OtherClass                 // a class that is not a subclass of `BaseAgent`
    | BaseAgentItself            // `BaseAgent` imported into the plugin module
    | AgentSubclass(cls: AgentClass)

  datatype Member = Member(name: string, kind: MemberKind)

  /** The outcome of `importlib.import_module(module_path)`. */
  datatype ModuleImport = ImportFailed | Module(members: seq<Member>)

  /** The entry kept for a loaded plugin. */
  datatype LoadedPlugin = LoadedPlugin(modulePath: string, cls: AgentClass, instance: Agent)

  /** `isinstance(item, type) and issubclass(item, BaseAgent) and item is not BaseAgent` */
  predicate IsAgentClass(m: Member) {
    m.kind.AgentSubclass?
  }

  /** The class-selection loop: the first member, in listing order, that is
      an agent class other than `BaseAgent`, or `None`. */
  method FirstAgentClass(members: seq<Member>) returns (r: Option<AgentClass>)
    ensures r.None? <==> forall i :: 0 <= i < |members| ==> !IsAgentClass(members[i])
    ensures r.Some? ==> exists i :: 0 <= i < |members| && members[i].kind == AgentSubclass(r.value)
                                    && forall j :: 0 <= j < i ==> !IsAgentClass(members[j])
  {
    var i := 0;
    while i < |members|
      invariant 0 <= i <= |members|
      invariant forall j :: 0 <= j < i ==> !IsAgentClass(members[j])
    {
      if IsAgentClass(members[i]) {
        return Some(members[i].kind.cls);
      }
      i := i + 1;
    }
    return None;
  }

  class PluginLoader {
    /** The loaded plugin names, in the order they were first loaded. */
    var names: seq<string>
    var loaded: map<string, LoadedPlugin>

    /** `names` is the key list of the `loaded_plugins` dict. */
    ghost predicate Valid()
      reads this
    {
      Distinct(names) && forall n :: n in names <==> n in loaded
    }

    constructor ()
      ensures Valid() && names == [] && loaded == map[]
    {
      names := [];
      loaded := map[];
    }

    /** `load_plugin`. Every failure (no module, no agent class, a raising
        constructor) is caught and yields `null`; a class that was found is
        registered before it is instantiated, so a raising constructor
        leaves it registered but not loaded. */
    method LoadPlugin(modulePath: string, pluginName: string, config: Option<Obj>,
                      imported: ModuleImport, registry: AgentRegistry) returns (r: Agent?)
      requires Valid() && registry.Valid()
      modifies this, registry
      ensures Valid() && registry.Valid()
      ensures imported.ImportFailed? || (forall i :: 0 <= i < |imported.members| ==> !IsAgentClass(imported.members[i]))
              ==> r == null && unchanged(this) && unchanged(registry)
      ensures imported.Module? && (exists i :: 0 <= i < |imported.members| && IsAgentClass(imported.members[i])) ==>
                exists i :: 0 <= i < |imported.members|
                  && imported.members[i].kind.AgentSubclass?
                  && (forall j :: 0 <= j < i ==> !IsAgentClass(imported.members[j]))
                  && var cls := imported.members[i].kind.cls;
                  && registry.classes == old(registry.classes)[pluginName := cls]
                  && registry.names == InsertKey(old(registry.names), pluginName)
                  && (cls.initRaises ==> r == null && unchanged(this))
                  && (!cls.initRaises ==>
                        && r != null && fresh(r) && r.cls == cls
                        && r.config == (if config.Some? then config.value else Empty)
                        && loaded == old(loaded)[pluginName := LoadedPlugin(modulePath, cls, r)]
                        && names == InsertKey(old(names), pluginName))
    {
      if imported.ImportFailed? {
        return null;
      }
      var found := FirstAgentClass(imported.members);
      if found.None? {
        return null;
      }
      var cls := found.value;
      registry.Register(pluginName, cls);
      if cls.initRaises {
        return null;
      }
      var agent := new Agent(cls, config);
      loaded := loaded[pluginName := LoadedPlugin(modulePath, cls, agent)];
      names := InsertKey(names, pluginName);
      return agent;
    }

    /** `unload_plugin`: forgets the plugin (it stays registered). */
    method UnloadPlugin(pluginName: string)
      requires Valid()
      modifies this
      ensures Valid()
      ensures loaded == old(loaded) - {pluginName}
      ensures names == Without(old(names), pluginName)
    {
      if pluginName in loaded {
        loaded := loaded - {pluginName};
        names := Without(names, pluginName);
      }
    }

    /** `list_loaded_plugins`: each loaded name once, in load order. */
    function ListLoadedPlugins(): (r: seq<string>)
      requires Valid()
      reads this
      ensures Distinct(r)
      ensures forall n :: n in r <==> n in loaded
    {
      names
    }
  }
}
