/**
 * The agent contract and the four built-in agents.
 *
 * An agent is an object with a configuration dict, a name (its class's
 * name), a version and a status that `OnStart`/`OnStop` switch between
 * "active" and "inactive". Each built-in agent class has its own `execute`:
 * a transform of an input dict driven by the configuration. Python raises
 * where the configuration has the wrong shape; those paths end in
 * `Raised`.
 */
module BaseAgent {
  import opened PyValues

  /** Which `execute` a class has: one of the four built-ins, or a plugin's own. */
  datatype Kind = Validator | Analyzer | Enricher | Transformer | Custom

  /** A Python agent class: its name, its `execute`, and whether calling it
      (its constructor) raises. Only plugin classes can raise. */
  datatype AgentClass = AgentClass(className: string, kind: Kind, initRaises: bool)

  const ValidatorAgent := AgentClass("ValidatorAgent", Validator, false)
  const AnalyzerAgent := AgentClass("AnalyzerAgent", Analyzer, false)
  const EnricherAgent := AgentClass("EnricherAgent", Enricher, false)
  const TransformerAgent := AgentClass("TransformerAgent", Transformer, false)

  /** A constructed agent. Only `status` changes after construction. */
  class Agent {
    const cls: AgentClass
    const config: Obj
    const name: string
    const version: string
    var status: string

    /** `cls(config=config)`: a missing configuration becomes `{}` (an empty
        one already is). */
    constructor (cls: AgentClass, config: Option<Obj>)
      ensures this.cls == cls
      ensures this.config == if config.Some? then config.value else Empty
      ensures name == cls.className && version == "1.0.0"
      ensures status == "inactive"
    {
      this.cls := cls;
      this.config := OrEmpty(config);
      this.name := cls.className;
      this.version := "1.0.0";
      this.status := "inactive";
    }

    /** `get_metadata`: a dict of the name, version, status and
        configuration, in that key order. */
    function GetMetadata(): (m: Obj)
      reads this
      ensures m.keys == ["name", "version", "status", "config"]
      ensures Get(m, "name") == PyStr(name) && Get(m, "version") == PyStr(version)
      ensures Get(m, "status") == PyStr(status) && Get(m, "config") == PyDict(config)
    {
      var keys := ["name", "version", "status", "config"];
      ListedOnceDistinct(keys);
      Dict(keys, map["name" := PyStr(name), "version" := PyStr(version), "status" := PyStr(status), "config" := PyDict(config)])
    }

    /** The default input check accepts every input. */
    function ValidateInput(data: Obj): (ok: bool)
      ensures ok
    {
      true
    }

    method OnStart()
      modifies this`status
      ensures status == "active"
      ensures GetMetadata() == Set(old(GetMetadata()), "status", PyStr("active"))
    {
      ghost var before := GetMetadata();
      status := "active";
      assert GetMetadata().vals == before.vals["status" := PyStr("active")];
    }

    method OnStop()
      modifies this`status
      ensures status == "inactive"
      ensures GetMetadata() == Set(old(GetMetadata()), "status", PyStr("inactive"))
    {
      ghost var before := GetMetadata();
      status := "inactive";
      assert GetMetadata().vals == before.vals["status" := PyStr("inactive")];
    }

    /** `ValidatorAgent.execute`: applies every configured rule in order. */
    method ExecuteValidator(data: Obj) returns (r: Outcome<ValidationReport>)
      requires cls.kind == Validator
      ensures r == ValidatorResult(config, data)
    {
      var it := Iterate(GetOr(config, "rules", PyList([])));
      if it.None? {
        return Raised(TypeError);
      }
      var rules := it.value;
      var errors: seq<ValidationError> := [];
      var i := 0;
      while i < |rules|
        invariant 0 <= i <= |rules|
        invariant Validation(rules[..i], data) == Ok(errors)
      {
        assert rules[..i + 1][..i] == rules[..i];
        var contributed := RuleErrors(rules[i], data);
        if contributed.Raised? {
          ValidationStopsAtRaise(rules, i + 1, data);
          return Raised(contributed.exc);
        }
        errors := errors + contributed.value;
        i := i + 1;
      }
      assert rules[..i] == rules;
      r := Ok(ValidationReport(|errors| == 0, errors, data));
    }

    /** `AnalyzerAgent.execute`; `now` is the ISO timestamp of the call and
        `str` is Python's `str()` of a dict. */
    method ExecuteAnalyzer(data: Obj, now: string, str: Obj -> string) returns (r: AnalysisReport)
      requires cls.kind == Analyzer
      ensures r.data == data && r.analysis.timestamp == now
      ensures r.analysis.dataSize == |str(data)|
      ensures r.analysis.fieldsCount == |data.vals|
      ensures |r.analysis.insights|
              == (if exists k :: k in data.vals && IsMissing(data.vals[k]) then 1 else 0)
               + (if exists k :: k in data.vals && IsNumber(data.vals[k]) then 1 else 0)
      ensures (exists k :: k in data.vals && IsMissing(data.vals[k]))
              <==> (|r.analysis.insights| > 0 && r.analysis.insights[0].MissingData?)
      ensures (exists k :: k in data.vals && IsNumber(data.vals[k]))
              <==> (|r.analysis.insights| > 0 && r.analysis.insights[|r.analysis.insights| - 1].NumericSummary?)
      ensures forall n :: 0 <= n < |r.analysis.insights| ==> DescribesData(r.analysis.insights[n], data)
      ensures forall n :: 0 <= n < |r.analysis.insights| && r.analysis.insights[n].MissingData? ==>
                r.analysis.insights[n].fields == KeysWhere(data.keys, data.vals, IsMissing)
      ensures forall n :: 0 <= n < |r.analysis.insights| && r.analysis.insights[n].NumericSummary? ==>
                r.analysis.insights[n].fields == KeysWhere(data.keys, data.vals, IsNumber)
    {
      ObjSize(data);
      AnalyzerFields(data);
      var missing := KeysWhere(data.keys, data.vals, IsMissing);
      var numeric := KeysWhere(data.keys, data.vals, IsNumber);
      var insights: seq<Insight> := [];
      if missing != [] {
        insights := [MissingData(missing)];
      }
      if numeric != [] {
        insights := insights + [NumericSummary(numeric, |numeric|)];
      }
      InsightsShape(missing, numeric, insights);
      InsightsDescribeData(data, insights);
      r := AnalysisReport(Analysis(now, |str(data)|, |data.keys|, insights), data);
    }

    /** `EnricherAgent.execute`; `now` is the ISO timestamp of the call. */
    method ExecuteEnricher(data: Obj, now: string) returns (r: Outcome<Obj>)
      requires cls.kind == Enricher
      ensures r == EnricherResult(config, name, version, data, now)
    {
      var enriched := Set(data, "_enrichment", Stamp(now, name, version));
      var it := Iterate(GetOr(config, "rules", PyList([])));
      if it.None? {
        return Raised(TypeError);
      }
      var rules := it.value;
      var base := enriched;
      var i := 0;
      while i < |rules|
        invariant 0 <= i <= |rules|
        invariant Enrich(rules[..i], base) == Ok(enriched)
      {
        assert rules[..i + 1][..i] == rules[..i];
        var step := ApplyEnrichRule(rules[i], enriched);
        if step.Raised? {
          EnrichStopsAtRaise(rules, i + 1, base);
          return Raised(step.exc);
        }
        enriched := step.value;
        i := i + 1;
      }
      assert rules[..i] == rules;
      r := Ok(enriched);
    }

    /** `TransformerAgent.execute`. */
    method ExecuteTransformer(data: Obj) returns (r: Outcome<Obj>)
      requires cls.kind == Transformer
      ensures r == TransformerResult(config, data)
    {
      var mappings := GetOr(config, "mappings", PyDict(Empty));
      if !mappings.PyDict? {
        return Raised(AttributeError);
      }
      var m := mappings.d;
      r := ApplyMappings(m, data);
      if r.Ok? && Truthy(GetOr(config, "copy_unmapped", PyBool(false))) {
        var transformed := CopyUnmappedKeys(data, m, r.value);
        r := Ok(transformed);
      }
    }
  }

  /** The mapping loop of `TransformerAgent.execute`: each entry of
      `mappings` whose source is in the input sets its target. */
  method ApplyMappings(m: Dict, data: Obj) returns (r: Outcome<Obj>)
    ensures r == MapFields(m, |m.keys|, data)
  {
    var transformed := Empty;
    var i := 0;
    while i < |m.keys|
      invariant 0 <= i <= |m.keys|
      invariant MapFields(m, i, data) == Ok(transformed)
    {
      var source := m.keys[i];
      if source in data.vals {
        var step := SetKey(transformed, Get(m, source), data.vals[source]);
        if step.Raised? {
          MapFieldsStopsAtRaise(m, i + 1, |m.keys|, data);
          return Raised(step.exc);
        }
        transformed := step.value;
      }
      i := i + 1;
    }
    r := Ok(transformed);
  }

  /** The copy loop of `TransformerAgent.execute`: input keys that are
      neither mapping sources nor already present are copied. */
  method CopyUnmappedKeys(data: Obj, m: Dict, mapped: Obj) returns (r: Obj)
    ensures r == CopyUnmapped(data, |data.keys|, m, mapped)
  {
    r := mapped;
    var j := 0;
    while j < |data.keys|
      invariant 0 <= j <= |data.keys|
      invariant r == CopyUnmapped(data, j, m, mapped)
    {
      var key := data.keys[j];
      if key !in m.vals && key !in r.vals {
        r := Set(r, key, data.vals[key]);
      }
      j := j + 1;
    }
  }

  // ---------------------------------------------------------------- Validator

  /** One entry of the validator's `errors` list; the message text is the
      constructor with its field (and bound). */
  datatype ValidationError =
    | MissingField(named: Value)          // "Missing required field: {field}"
    | FieldRequired(field: string)        // "Field {field} is required"
    | MustBeString(field: string)         // "Field {field} must be a string"
    | MustBeNumber(field: string)         // "Field {field} must be a number"
    | BelowMin(field: string, min: Value) // "Field {field} must be >= {min}"
    | AboveMax(field: string, max: Value) // "Field {field} must be <= {max}"

  /** `{"valid": ..., "errors": ..., "data": ...}` */
  datatype ValidationReport = ValidationReport(valid: bool, errors: seq<ValidationError>, data: Obj)

  /** The errors one rule contributes, or the exception it raises. */
  function RuleErrors(rule: Value, data: Obj): Outcome<seq<ValidationError>>
  {
    if !rule.PyDict? then Raised(AttributeError)
    else
      var field := Get(rule.d, "field");
      var ruleType := Get(rule.d, "type");
      match Contains(data, field)
      case Raised(e) => Raised(e)
      case Ok(present) =>
        if !present then Ok([MissingField(field)])
        else
          var value := data.vals[field.s];
          if ruleType == PyStr("required") && !Truthy(value) then Ok([FieldRequired(field.s)])
          else if ruleType == PyStr("type") then
            var expected := Get(rule.d, "expected");
            if expected == PyStr("string") && !value.PyStr? then Ok([MustBeString(field.s)])
            else if expected == PyStr("number") && !IsNumber(value) then Ok([MustBeNumber(field.s)])
            else Ok([])
          else if ruleType == PyStr("range") then
            RangeErrors(field.s, value, Get(rule.d, "min"), Get(rule.d, "max"))
          else Ok([])
  }

  /** A range rule: a non-number is not checked; a bound that is not a
      number makes the comparison raise. */
  function RangeErrors(field: string, value: Value, min: Value, max: Value): Outcome<seq<ValidationError>>
  {
    if !IsNumber(value) then Ok([])
    else if min != PyNone && !IsNumber(min) then Raised(TypeError)
    else
      var low := if min != PyNone && Num(value) < Num(min) then [BelowMin(field, min)] else [];
      if max != PyNone && !IsNumber(max) then Raised(TypeError)
      else Ok(low + if max != PyNone && Num(value) > Num(max) then [AboveMax(field, max)] else [])
  }

  /** The validator's loop over `rules`: errors accumulate in rule order,
      and the first rule that raises ends the call. */
  function Validation(rules: seq<Value>, data: Obj): Outcome<seq<ValidationError>>
  {
    if rules == [] then Ok([])
    else
      match Validation(rules[..|rules| - 1], data)
      case Raised(e) => Raised(e)
      case Ok(before) =>
        match RuleErrors(rules[|rules| - 1], data)
        case Raised(e) => Raised(e)
        case Ok(es) => Ok(before + es)
  }

  /** The whole of `ValidatorAgent.execute` for a configuration. */
  function ValidatorResult(config: Obj, data: Obj): (r: Outcome<ValidationReport>)
    ensures r.Ok? ==> r.value.data == data
    ensures r.Ok? ==> (r.value.valid <==> r.value.errors == [])
  {
    match Iterate(GetOr(config, "rules", PyList([])))
    case None => Raised(TypeError)
    case Some(rules) =>
      match Validation(rules, data)
      case Raised(e) => Raised(e)
      case Ok(errors) => Ok(ValidationReport(|errors| == 0, errors, data))
  }

  lemma {:induction false} ValidationStopsAtRaise(rules: seq<Value>, n: nat, data: Obj)
    requires n <= |rules|
    requires Validation(rules[..n], data).Raised?
    ensures Validation(rules, data) == Validation(rules[..n], data)
    decreases |rules|
  {
    if n == |rules| {
      assert rules[..n] == rules;
    } else {
      var p := rules[..|rules| - 1];
      assert p[..n] == rules[..n];
      ValidationStopsAtRaise(p, n, data);
    }
  }

  /** Rules are independent: the errors of `a + b` are those of `a` followed
      by those of `b`, and an exception in `a` wins. */
  lemma {:induction false} ValidationSplits(a: seq<Value>, b: seq<Value>, data: Obj)
    ensures Validation(a + b, data) ==
      match Validation(a, data)
      case Raised(e) => Raised(e)
      case Ok(x) =>
        match Validation(b, data)
        case Raised(e) => Raised(e)
        case Ok(y) => Ok(x + y)
    decreases |b|
  {
    if b == [] {
      assert a + b == a;
      if Validation(a, data).Ok? {
        assert Validation(a, data).value + [] == Validation(a, data).value;
      }
    } else {
      var b' := b[..|b| - 1];
      var rule := b[|b| - 1];
      assert (a + b)[..|a + b| - 1] == a + b';
      assert (a + b)[|a + b| - 1] == rule;
      ValidationSplits(a, b', data);
      if Validation(a, data).Ok? && Validation(b', data).Ok? && RuleErrors(rule, data).Ok? {
        var x, y, z := Validation(a, data).value, Validation(b', data).value, RuleErrors(rule, data).value;
        assert x + y + z == x + (y + z);
      }
    }
  }

  /** A rule naming a field the input lacks contributes exactly one
      "missing" error and no other check. */
  lemma MissingFieldRule(rule: Value, data: Obj)
    requires rule.PyDict?
    requires Hashable(Get(rule.d, "field"))
    requires !(Get(rule.d, "field").PyStr? && Get(rule.d, "field").s in data.vals)
    ensures RuleErrors(rule, data) == Ok([MissingField(Get(rule.d, "field"))])
  {
  }

  /** Adding such a rule anywhere adds exactly one error, in its place. */
  lemma MissingFieldAddsOneError(a: seq<Value>, rule: Value, b: seq<Value>, data: Obj, x: seq<ValidationError>, y: seq<ValidationError>)
    requires rule.PyDict? && Hashable(Get(rule.d, "field"))
    requires !(Get(rule.d, "field").PyStr? && Get(rule.d, "field").s in data.vals)
    requires Validation(a, data) == Ok(x) && Validation(b, data) == Ok(y)
    ensures Validation(a + [rule] + b, data) == Ok(x + [MissingField(Get(rule.d, "field"))] + y)
  {
    ValidationSplits(a, [rule], data);
    ValidationSplits(a + [rule], b, data);
    assert [rule][..0] == [];
  }

  /** With no rules configured every input is valid. */
  lemma NoRulesIsValid(config: Obj, data: Obj)
    requires "rules" !in config.vals || config.vals["rules"] == PyList([])
    ensures ValidatorResult(config, data) == Ok(ValidationReport(true, [], data))
  {
  }

  /** A range rule ignores a non-number, and checks the lower and the upper
      bound independently of each other. */
  lemma RangeBoundsIndependent(field: string, value: Value, min: Value, max: Value)
    requires (min == PyNone || IsNumber(min)) && (max == PyNone || IsNumber(max))
    ensures !IsNumber(value) ==> RangeErrors(field, value, min, max) == Ok([])
    ensures IsNumber(value) ==>
              RangeErrors(field, value, min, max) ==
              Ok((if min != PyNone && Num(value) < Num(min) then [BelowMin(field, min)] else [])
                 + (if max != PyNone && Num(value) > Num(max) then [AboveMax(field, max)] else []))
  {
  }

  /** A valid report has no errors and an invalid one has some; the input is echoed. */
  lemma ValidMeansNoErrors(config: Obj, data: Obj)
    requires ValidatorResult(config, data).Ok?
    ensures ValidatorResult(config, data).value.valid <==> ValidatorResult(config, data).value.errors == []
    ensures ValidatorResult(config, data).value.data == data
  {
  }

  // ---------------------------------------------------------------- Analyzer

  /** `v is None or v == ""` */
  predicate IsMissing(v: Value) {
    v == PyNone || v == PyStr("")
  }

  /** An entry of `analysis["insights"]`. */
  datatype Insight =
    | MissingData(fields: seq<string>)
    | NumericSummary(fields: seq<string>, count: nat)

  /** `analysis` */
  datatype Analysis = Analysis(timestamp: string, dataSize: nat, fieldsCount: nat, insights: seq<Insight>)

  datatype AnalysisReport = AnalysisReport(analysis: Analysis, data: Obj)

  /** An insight lists exactly the keys it is about, each once, in the
      dict's order. */
  ghost predicate DescribesData(ins: Insight, data: Obj) {
    match ins
    case MissingData(fields) =>
      Distinct(fields) && InOrderOf(fields, data.keys)
      && forall k :: k in fields <==> k in data.vals && IsMissing(data.vals[k])
    case NumericSummary(fields, count) =>
      Distinct(fields) && InOrderOf(fields, data.keys) && count == |fields|
      && forall k :: k in fields <==> k in data.vals && IsNumber(data.vals[k])
  }

  /** The two key lists the analyser builds describe the input, in the
      dict's order, and each is non-empty exactly when some value qualifies. */
  lemma AnalyzerFields(data: Obj)
    ensures var missing := KeysWhere(data.keys, data.vals, IsMissing);
            && DescribesData(MissingData(missing), data)
            && (missing != [] <==> exists k :: k in data.vals && IsMissing(data.vals[k]))
    ensures var numeric := KeysWhere(data.keys, data.vals, IsNumber);
            && DescribesData(NumericSummary(numeric, |numeric|), data)
            && (numeric != [] <==> exists k :: k in data.vals && IsNumber(data.vals[k]))
  {
    ObjKeysDistinct(data);
    KeysWhereNonEmpty(data, IsMissing);
    KeysWhereNonEmpty(data, IsNumber);
    KeysWhereInOrder(data.keys, data.vals, IsMissing);
    KeysWhereInOrder(data.keys, data.vals, IsNumber);
  }

  /** The analyser's insight list: the missing-value entry first, the
      numeric one last, each present exactly when its key list is non-empty. */
  lemma InsightsShape(missing: seq<string>, numeric: seq<string>, insights: seq<Insight>)
    requires insights == (if missing != [] then [MissingData(missing)] else [])
                         + (if numeric != [] then [NumericSummary(numeric, |numeric|)] else [])
    ensures |insights| == (if missing != [] then 1 else 0) + (if numeric != [] then 1 else 0)
    ensures missing != [] <==> |insights| > 0 && insights[0].MissingData?
    ensures numeric != [] <==> |insights| > 0 && insights[|insights| - 1].NumericSummary?
    ensures forall n :: 0 <= n < |insights| ==>
              insights[n] == MissingData(missing) || insights[n] == NumericSummary(numeric, |numeric|)
  {
  }

  /** Each entry of the analyser's insight list describes the input. */
  lemma InsightsDescribeData(data: Obj, insights: seq<Insight>)
    requires forall n :: 0 <= n < |insights| ==>
               insights[n] == MissingData(KeysWhere(data.keys, data.vals, IsMissing))
               || insights[n] == NumericSummary(KeysWhere(data.keys, data.vals, IsNumber),
                                                |KeysWhere(data.keys, data.vals, IsNumber)|)
    ensures forall n :: 0 <= n < |insights| ==> DescribesData(insights[n], data)
    ensures forall n :: 0 <= n < |insights| && insights[n].MissingData? ==>
              insights[n].fields == KeysWhere(data.keys, data.vals, IsMissing)
    ensures forall n :: 0 <= n < |insights| && insights[n].NumericSummary? ==>
              insights[n].fields == KeysWhere(data.keys, data.vals, IsNumber)
  {
    AnalyzerFields(data);
  }

  /** The numeric summary's count is the number of numeric fields. */
  lemma NumericCountIsNumberOfNumericFields(fields: seq<string>, count: nat, data: Obj)
    requires DescribesData(NumericSummary(fields, count), data)
    ensures count == |set k | k in data.vals && IsNumber(data.vals[k])|
  {
    DistinctSize(fields);
    assert (set k | k in fields) == set k | k in data.vals && IsNumber(data.vals[k]);
  }

  // ---------------------------------------------------------------- Enricher

  /** `{"timestamp": now, "agent": name, "version": version}` */
  function Stamp(now: string, agentName: string, version: string): Value {
    PyDict(Dict(["timestamp", "agent", "version"],
                map["timestamp" := PyStr(now), "agent" := PyStr(agentName), "version" := PyStr(version)]))
  }

  /** One enrichment rule: set `add_field` to `value` when both are truthy. */
  function ApplyEnrichRule(rule: Value, acc: Obj): Outcome<Obj> {
    match RuleGet(rule, "add_field")
    case Raised(e) => Raised(e)
    case Ok(field) =>
      var value := Get(rule.d, "value");
      if Truthy(field) && Truthy(value) then SetKey(acc, field, value) else Ok(acc)
  }

  /** The enricher's loop over its rules, from `base`. */
  function Enrich(rules: seq<Value>, base: Obj): Outcome<Obj> {
    if rules == [] then Ok(base)
    else
      match Enrich(rules[..|rules| - 1], base)
      case Raised(e) => Raised(e)
      case Ok(acc) => ApplyEnrichRule(rules[|rules| - 1], acc)
  }

  /** The whole of `EnricherAgent.execute`. */
  function EnricherResult(config: Obj, agentName: string, version: string, data: Obj, now: string): Outcome<Obj> {
    match Iterate(GetOr(config, "rules", PyList([])))
    case None => Raised(TypeError)
    case Some(rules) => Enrich(rules, Set(data, "_enrichment", Stamp(now, agentName, version)))
  }

  lemma {:induction false} EnrichStopsAtRaise(rules: seq<Value>, n: nat, base: Obj)
    requires n <= |rules|
    requires Enrich(rules[..n], base).Raised?
    ensures Enrich(rules, base) == Enrich(rules[..n], base)
    decreases |rules|
  {
    if n == |rules| {
      assert rules[..n] == rules;
    } else {
      var p := rules[..|rules| - 1];
      assert p[..n] == rules[..n];
      EnrichStopsAtRaise(p, n, base);
    }
  }

  /** Rule `rule` sets string key `k`. */
  ghost predicate Adds(rule: Value, k: string) {
    rule.PyDict? && Get(rule.d, "add_field") == PyStr(k) && k != "" && Truthy(Get(rule.d, "value"))
  }

  /** Rule `i` is the last one that sets `k`. */
  ghost predicate LastAdds(rules: seq<Value>, i: int, k: string) {
    0 <= i < |rules| && Adds(rules[i], k) && forall j :: i < j < |rules| ==> !Adds(rules[j], k)
  }

  /** One rule: it sets its own field (if it adds one) and nothing else. */
  lemma ApplyEnrichRuleEffect(rule: Value, acc: Obj, out: Obj)
    requires ApplyEnrichRule(rule, acc) == Ok(out)
    ensures forall k :: k in out.vals <==> k in acc.vals || Adds(rule, k)
    ensures forall k :: k in acc.vals && !Adds(rule, k) ==> out.vals[k] == acc.vals[k]
    ensures forall k :: Adds(rule, k) ==> out.vals[k] == Get(rule.d, "value")
  {
  }

  /** The enricher keeps every key of its base and adds each rule's field. */
  lemma {:induction false} EnrichKeys(rules: seq<Value>, base: Obj, out: Obj)
    requires Enrich(rules, base) == Ok(out)
    ensures forall k :: k in out.vals <==> k in base.vals || exists i :: 0 <= i < |rules| && Adds(rules[i], k)
  {
    if rules != [] {
      var p, last := rules[..|rules| - 1], rules[|rules| - 1];
      assert Enrich(p, base).Ok?;
      var acc := Enrich(p, base).value;
      EnrichKeys(p, base, acc);
      ApplyEnrichRuleEffect(last, acc, out);
      assert forall i :: 0 <= i < |p| ==> p[i] == rules[i];
      forall k
        ensures (exists i :: 0 <= i < |rules| && Adds(rules[i], k))
                <==> (exists i :: 0 <= i < |p| && Adds(p[i], k)) || Adds(last, k)
      {
        if exists i :: 0 <= i < |rules| && Adds(rules[i], k) {
          var i :| 0 <= i < |rules| && Adds(rules[i], k);
        }
      }
    }
  }

  /** A key of the base that no rule sets keeps its value. */
  lemma {:induction false} EnrichKeeps(rules: seq<Value>, base: Obj, out: Obj, k: string)
    requires Enrich(rules, base) == Ok(out)
    requires k in base.vals && forall i :: 0 <= i < |rules| ==> !Adds(rules[i], k)
    ensures k in out.vals && out.vals[k] == base.vals[k]
  {
    if rules != [] {
      var p, last := rules[..|rules| - 1], rules[|rules| - 1];
      assert Enrich(p, base).Ok?;
      var acc := Enrich(p, base).value;
      assert forall i :: 0 <= i < |p| ==> p[i] == rules[i];
      EnrichKeeps(p, base, acc, k);
      ApplyEnrichRuleEffect(last, acc, out);
    }
  }

  /** A key set by some rule holds the value of the last rule that sets it. */
  lemma {:induction false} EnrichLastWins(rules: seq<Value>, base: Obj, out: Obj, i: int, k: string)
    requires Enrich(rules, base) == Ok(out)
    requires LastAdds(rules, i, k)
    ensures k in out.vals && out.vals[k] == Get(rules[i].d, "value")
  {
    var p, last := rules[..|rules| - 1], rules[|rules| - 1];
    assert Enrich(p, base).Ok?;
    var acc := Enrich(p, base).value;
    ApplyEnrichRuleEffect(last, acc, out);
    if i < |p| {
      assert forall j :: 0 <= j < |p| ==> p[j] == rules[j];
      assert LastAdds(p, i, k);
      EnrichLastWins(p, base, acc, i, k);
    }
  }

  /** What `EnricherAgent.execute` returns: the input's keys plus
      "_enrichment" plus the rules' fields; "_enrichment" holds the stamp
      unless a rule sets it; the input's other values are kept unless a rule
      sets them. The input itself is a value and cannot change. */
  lemma EnricherOutput(config: Obj, agentName: string, version: string, data: Obj, now: string, rules: seq<Value>, out: Obj)
    requires Iterate(GetOr(config, "rules", PyList([]))) == Some(rules)
    requires EnricherResult(config, agentName, version, data, now) == Ok(out)
    ensures forall k :: k in out.vals <==>
      k in data.vals || k == "_enrichment" || exists i :: 0 <= i < |rules| && Adds(rules[i], k)
    ensures forall k :: k in data.vals && k != "_enrichment" && (forall i :: 0 <= i < |rules| ==> !Adds(rules[i], k))
                        ==> out.vals[k] == data.vals[k]
    ensures (forall i :: 0 <= i < |rules| ==> !Adds(rules[i], "_enrichment"))
            ==> out.vals["_enrichment"] == Stamp(now, agentName, version)
    ensures forall i, k :: LastAdds(rules, i, k) ==> out.vals[k] == Get(rules[i].d, "value")
  {
    var base := Set(data, "_enrichment", Stamp(now, agentName, version));
    EnrichKeys(rules, base, out);
    forall k | k in data.vals && k != "_enrichment" && (forall i :: 0 <= i < |rules| ==> !Adds(rules[i], k))
      ensures out.vals[k] == data.vals[k]
    {
      EnrichKeeps(rules, base, out, k);
    }
    if forall i :: 0 <= i < |rules| ==> !Adds(rules[i], "_enrichment") {
      EnrichKeeps(rules, base, out, "_enrichment");
    }
    forall i, k | LastAdds(rules, i, k)
      ensures out.vals[k] == Get(rules[i].d, "value")
    {
      EnrichLastWins(rules, base, out, i, k);
    }
  }

  // ---------------------------------------------------------------- Transformer

  /** Mapping entry `i` (source to target `t`) applies: its source is in the input. */
  ghost predicate Routes(m: Dict, data: Obj, i: int, t: string) {
    0 <= i < |m.keys| && m.keys[i] in data.vals && Get(m, m.keys[i]) == PyStr(t)
  }

  /** The first `n` entries of `mappings`, applied to an empty dict. */
  function MapFields(m: Dict, n: nat, data: Obj): Outcome<Obj>
    requires n <= |m.keys|
  {
    if n == 0 then Ok(Empty)
    else
      match MapFields(m, n - 1, data)
      case Raised(e) => Raised(e)
      case Ok(acc) =>
        var source := m.keys[n - 1];
        if source in data.vals then SetKey(acc, Get(m, source), data.vals[source]) else Ok(acc)
  }

  /** The first `n` keys of the input, copied when neither a mapping source
      nor already present. */
  function CopyUnmapped(data: Obj, n: nat, m: Dict, acc: Obj): Obj
    requires n <= |data.keys|
  {
    if n == 0 then acc
    else
      var before := CopyUnmapped(data, n - 1, m, acc);
      var key := data.keys[n - 1];
      if key !in m.vals && key !in before.vals then Set(before, key, data.vals[key]) else before
  }

  /** The whole of `TransformerAgent.execute`. */
  function TransformerResult(config: Obj, data: Obj): Outcome<Obj> {
    var mappings := GetOr(config, "mappings", PyDict(Empty));
    if !mappings.PyDict? then Raised(AttributeError)
    else
      match MapFields(mappings.d, |mappings.d.keys|, data)
      case Raised(e) => Raised(e)
      case Ok(mapped) =>
        if Truthy(GetOr(config, "copy_unmapped", PyBool(false)))
        then Ok(CopyUnmapped(data, |data.keys|, mappings.d, mapped))
        else Ok(mapped)
  }

  lemma {:induction false} MapFieldsStopsAtRaise(m: Dict, n: nat, total: nat, data: Obj)
    requires n <= total <= |m.keys|
    requires MapFields(m, n, data).Raised?
    ensures MapFields(m, total, data) == MapFields(m, n, data)
    decreases total
  {
    if n < total {
      MapFieldsStopsAtRaise(m, n, total - 1, data);
    }
  }

  /** After the mapping loop, a key is present exactly when some applying
      entry targets it. */
  lemma {:induction false} MapFieldsKeys(m: Dict, n: nat, data: Obj, acc: Obj)
    requires n <= |m.keys|
    requires MapFields(m, n, data) == Ok(acc)
    ensures forall t :: t in acc.vals <==> exists i :: 0 <= i < n && Routes(m, data, i, t)
  {
    if n > 0 {
      assert MapFields(m, n - 1, data).Ok?;
      var prev := MapFields(m, n - 1, data).value;
      MapFieldsKeys(m, n - 1, data, prev);
      forall t
        ensures t in acc.vals <==> exists i :: 0 <= i < n && Routes(m, data, i, t)
      {
        if Routes(m, data, n - 1, t) {
          assert t in acc.vals;
        } else {
          assert t in acc.vals <==> t in prev.vals;
        }
      }
    }
  }

  /** A target holds the input value of the last applying entry's source. */
  lemma {:induction false} MapFieldsLastWins(m: Dict, n: nat, data: Obj, acc: Obj, i: int, t: string)
    requires n <= |m.keys|
    requires MapFields(m, n, data) == Ok(acc)
    requires i < n && Routes(m, data, i, t) && forall j :: i < j < n ==> !Routes(m, data, j, t)
    ensures t in acc.vals && acc.vals[t] == data.vals[m.keys[i]]
  {
    assert MapFields(m, n - 1, data).Ok?;
    var prev := MapFields(m, n - 1, data).value;
    if i < n - 1 {
      MapFieldsLastWins(m, n - 1, data, prev, i, t);
      assert !Routes(m, data, n - 1, t);
    }
  }

  /** The copy loop adds exactly the input keys that are neither mapping
      sources nor already present. */
  lemma {:induction false} CopyUnmappedKeysAdded(data: Obj, n: nat, m: Dict, acc: Obj)
    requires n <= |data.keys|
    ensures forall k :: k in CopyUnmapped(data, n, m, acc).vals <==> k in acc.vals || (k in data.keys[..n] && k !in m.vals)
  {
    if n > 0 {
      CopyUnmappedKeysAdded(data, n - 1, m, acc);
      assert data.keys[..n] == data.keys[..n - 1] + [data.keys[n - 1]];
    }
  }

  /** The copy loop keeps the values already present. */
  lemma {:induction false} CopyUnmappedKeeps(data: Obj, n: nat, m: Dict, acc: Obj)
    requires n <= |data.keys|
    ensures forall k :: k in acc.vals ==>
              k in CopyUnmapped(data, n, m, acc).vals && CopyUnmapped(data, n, m, acc).vals[k] == acc.vals[k]
  {
    if n > 0 {
      var before := CopyUnmapped(data, n - 1, m, acc);
      CopyUnmappedKeeps(data, n - 1, m, acc);
      forall k | k in acc.vals
        ensures k in CopyUnmapped(data, n, m, acc).vals && CopyUnmapped(data, n, m, acc).vals[k] == acc.vals[k]
      {
        assert k in before.vals && before.vals[k] == acc.vals[k];
      }
    }
  }

  /** A key the copy loop adds holds its input value. */
  lemma {:induction false} CopyUnmappedCopies(data: Obj, n: nat, m: Dict, acc: Obj)
    requires n <= |data.keys|
    ensures forall k :: k in CopyUnmapped(data, n, m, acc).vals && k !in acc.vals ==>
              k in data.vals && CopyUnmapped(data, n, m, acc).vals[k] == data.vals[k]
  {
    if n > 0 {
      CopyUnmappedCopies(data, n - 1, m, acc);
    }
  }

  /** What `TransformerAgent.execute` returns. Each key is the target of an
      applying mapping entry (holding the value of the last such entry's
      source) or, only with a truthy "copy_unmapped", an input key that is
      not a mapping source and not a target, copied unchanged. */
  lemma TransformerOutput(config: Obj, data: Obj, m: Dict, out: Obj)
    requires GetOr(config, "mappings", PyDict(Empty)) == PyDict(m)
    requires TransformerResult(config, data) == Ok(out)
    ensures forall i, t :: Routes(m, data, i, t) && (forall j :: i < j < |m.keys| ==> !Routes(m, data, j, t))
                           ==> t in out.vals && out.vals[t] == data.vals[m.keys[i]]
    ensures !Truthy(GetOr(config, "copy_unmapped", PyBool(false))) ==>
      forall t :: t in out.vals <==> exists i :: 0 <= i < |m.keys| && Routes(m, data, i, t)
    ensures Truthy(GetOr(config, "copy_unmapped", PyBool(false))) ==>
      forall k :: k in data.vals && k !in m.vals && (forall i :: 0 <= i < |m.keys| ==> !Routes(m, data, i, k))
                  ==> k in out.vals && out.vals[k] == data.vals[k]
    ensures Truthy(GetOr(config, "copy_unmapped", PyBool(false))) ==>
      forall k :: k in out.vals <==> (exists i :: 0 <= i < |m.keys| && Routes(m, data, i, k)) || (k in data.vals && k !in m.vals)
  {
    var mapped := MapFields(m, |m.keys|, data).value;
    MapFieldsKeys(m, |m.keys|, data, mapped);
    forall i, t | Routes(m, data, i, t) && (forall j :: i < j < |m.keys| ==> !Routes(m, data, j, t))
      ensures t in mapped.vals && mapped.vals[t] == data.vals[m.keys[i]]
    {
      MapFieldsLastWins(m, |m.keys|, data, mapped, i, t);
    }
    CopyUnmappedKeysAdded(data, |data.keys|, m, mapped);
    CopyUnmappedKeeps(data, |data.keys|, m, mapped);
    CopyUnmappedCopies(data, |data.keys|, m, mapped);
    assert data.keys[..|data.keys|] == data.keys;
  }
}
