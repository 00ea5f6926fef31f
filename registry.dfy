/**
 * The agent registry: a Python dict from registration names to agent
 * classes. A fresh registry already holds the four built-in agents.
 */
module Registry {
  import opened PyValues
  import opened BaseAgent

  /** What `create_agent` does: no class under the name, a new instance,
      or the class's constructor raised (the exception propagates). */
  datatype Creation = Unknown | Instance(agent: Agent) | ConstructorRaised

  /** The built-in registrations, in the order they are made. */
  const BuiltinNames: seq<string> := ["validator", "analyzer", "enricher", "transformer"]

  class AgentRegistry {
    /** The registered names, in the order they were first registered. */
    var names: seq<string>
    /** The class registered under each name. */
    var classes: map<string, AgentClass>

    /** `names` is the key list of the `classes` dict. */
    ghost predicate Valid()
      reads this
    {
      Distinct(names) && forall n :: n in names <==> n in classes
    }

    /** `AgentRegistry()`: registers the four built-in agents. */
    constructor ()
      ensures Valid()
      ensures names == BuiltinNames
      ensures classes == map["validator" := ValidatorAgent, "analyzer" := AnalyzerAgent,
                             "enricher" := EnricherAgent, "transformer" := TransformerAgent]
    {
      names := [];
      classes := map[];
      new;
      Register("validator", ValidatorAgent);
      assert names == ["validator"];
      Register("analyzer", AnalyzerAgent);
      assert names == ["validator", "analyzer"];
      Register("enricher", EnricherAgent);
      assert names == ["validator", "analyzer", "enricher"];
      Register("transformer", TransformerAgent);
    }

    /** `register`: a later registration under a name replaces the earlier one. */
    method Register(name: string, cls: AgentClass)
      requires Valid()
      modifies this
      ensures Valid()
      ensures classes == old(classes)[name := cls]
      ensures names == InsertKey(old(names), name)
    {
      classes := classes[name := cls];
      names := InsertKey(names, name);
    }

    /** `get_agent_class`: the class under `name`, or `None`. */
    function GetAgentClass(name: string): (r: Option<AgentClass>)
      reads this
      ensures r.Some? <==> name in classes
      ensures r.Some? ==> r.value == classes[name]
    {
      if name in classes then Some(classes[name]) else None
    }

    /** `create_agent`: instantiates the class under `name` with `config`. */
    method CreateAgent(name: string, config: Option<Obj>) returns (r: Creation)
      ensures name !in classes ==> r == Unknown
      ensures name in classes && classes[name].initRaises ==> r == ConstructorRaised
      ensures name in classes && !classes[name].initRaises ==>
                && r.Instance? && fresh(r.agent)
                && r.agent.cls == classes[name]
                && r.agent.config == (if config.Some? then config.value else Empty)
                && r.agent.status == "inactive"
    {
      var cls := GetAgentClass(name);
      if cls.None? {
        return Unknown;
      }
      if cls.value.initRaises {
        return ConstructorRaised;
      }
      var agent := new Agent(cls.value, config);
      r := Instance(agent);
    }

    /** `list_agents`: every registered name once, in registration order. */
    function ListAgents(): (r: seq<string>)
      requires Valid()
      reads this
      ensures Distinct(r)
      ensures forall n :: n in r <==> GetAgentClass(n).Some?
    {
      names
    }
  }
}
