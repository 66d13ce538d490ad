/** The configuration that the ComplianceScan controller deploys for a scan: one entry per
    supported ruleset, with the options that the scan references in ConfigMaps. */
module DikiConfig {
  import opened Prelude

  datatype ConfigMapRef = ConfigMapRef(namespace: string, name: string, key: Option<string>)
  datatype Options = Options(configMapRef: Option<ConfigMapRef>)
  datatype RulesetOptions = RulesetOptions(ruleset: Option<Options>, rules: Option<Options>)
  datatype RulesetConfig = RulesetConfig(id: string, version: string, options: Option<RulesetOptions>)
  datatype Spec = Spec(rulesets: seq<RulesetConfig>, outputs: seq<string>)

  /** What the API server answers when a ConfigMap is read, by namespace and name. */
  datatype Read = Found(data: map<string, string>) | NotFound | ReadFailed(error: string)
  type ConfigMaps = (string, string) -> Read

  /** YAML decoding is library code: whether a text decodes as rule options or as ruleset options.
      A decoded value is represented by its text. */
  datatype Yaml = Yaml(rules: string -> bool, any: string -> bool)

  datatype Error = MapMissing | KeyMissing | ReadError | BadYaml
  datatype Result<+T> = Success(value: T) | Failure(error: Error) {
    predicate IsFailure() { Failure? }

    function PropagateFailure<U>(): Result<U>
      requires Failure?
    {
      Failure(error)
    }

    function Extract(): T
      requires Success?
    {
      value
    }
  }

  const DISA_ID: string := "disa-kubernetes-stig"
  const DISA_NAME: string := "DISA Kubernetes Security Technical Implementation Guide"
  const SECURITY_HARDENED_ID: string := "security-hardened-k8s"
  const SECURITY_HARDENED_NAME: string := "Security Hardened Kubernetes Cluster"
  const RULE_OPTIONS_SUFFIX: string := "-rules"

  datatype DikiRuleset = DikiRuleset(id: string, name: string, version: string,
                                     args: Option<string>, ruleOptions: Option<string>)

  function RulesRef(r: RulesetConfig): Option<ConfigMapRef> {
    if r.options.None? || r.options.value.rules.None? then None else r.options.value.rules.value.configMapRef
  }

  function RulesetRef(r: RulesetConfig): Option<ConfigMapRef> {
    if r.options.None? || r.options.value.ruleset.None? then None else r.options.value.ruleset.value.configMapRef
  }

  function GetConfigMapKeyValue(maps: ConfigMaps, r: ConfigMapRef, defaultKey: string): Result<string> {
    var key := if r.key.Some? then r.key.value else defaultKey;
    match maps(r.namespace, r.name)
    case NotFound => Failure(MapMissing)
    case ReadFailed(_) => Failure(ReadError)
    case Found(data) => if key in data then Success(data[key]) else Failure(KeyMissing)
  }

  function GetOptions(maps: ConfigMaps, decodes: string -> bool, r: Option<ConfigMapRef>, defaultKey: string)
    : Result<Option<string>>
  {
    if r.None? then Success(None)
    else
      var text :- GetConfigMapKeyValue(maps, r.value, defaultKey);
      if decodes(text) then Success(Some(text)) else Failure(BadYaml)
  }

  function GetRuleOptions(maps: ConfigMaps, yaml: Yaml, r: RulesetConfig, id: string): Result<Option<string>> {
    GetOptions(maps, yaml.rules, RulesRef(r), id + RULE_OPTIONS_SUFFIX)
  }

  function GetRulesetOptions(maps: ConfigMaps, yaml: Yaml, r: RulesetConfig, id: string): Result<Option<string>> {
    GetOptions(maps, yaml.any, RulesetRef(r), id)
  }

  predicate Supported(r: RulesetConfig) { r.id == DISA_ID || r.id == SECURITY_HARDENED_ID }

  function RulesetName(id: string): string {
    if id == DISA_ID then DISA_NAME else SECURITY_HARDENED_NAME
  }

  /** The entries for a list of rulesets, or the first error: unsupported rulesets are skipped. */
  function Entries(maps: ConfigMaps, yaml: Yaml, rulesets: seq<RulesetConfig>): Result<seq<DikiRuleset>> {
    if rulesets == [] then Success([])
    else
      var last := rulesets[|rulesets| - 1];
      var entries :- Entries(maps, yaml, rulesets[..|rulesets| - 1]);
      if !Supported(last) then Success(entries)
      else
        var rules :- GetRuleOptions(maps, yaml, last, last.id);
        var options :- GetRulesetOptions(maps, yaml, last, last.id);
        Success(entries + [DikiRuleset(last.id, RulesetName(last.id), last.version, options, rules)])
  }

  lemma {:induction false} ErrorsStay(maps: ConfigMaps, yaml: Yaml, rulesets: seq<RulesetConfig>, i: nat)
    requires i <= |rulesets| && Entries(maps, yaml, rulesets[..i]).Failure?
    ensures Entries(maps, yaml, rulesets) == Failure(Entries(maps, yaml, rulesets[..i]).error)
  {
    if i == |rulesets| {
      assert rulesets[..i] == rulesets;
    } else {
      var init := rulesets[..|rulesets| - 1];
      assert init[..i] == rulesets[..i];
      ErrorsStay(maps, yaml, init, i);
    }
  }

  // ---------------------------------------------------------------- what the lookups read

  /** A reference points to a key of the ConfigMap that it names: to its own key if it has one, and
      otherwise to the default key. */
  predicate HasKey(maps: ConfigMaps, ref: ConfigMapRef, defaultKey: string) {
    var read := maps(ref.namespace, ref.name);
    && read.Found?
    && match ref.key
       case Some(key) => key in read.data
       case None => defaultKey in read.data
  }

  predicate PointsTo(maps: ConfigMaps, ref: ConfigMapRef, defaultKey: string, text: string) {
    var read := maps(ref.namespace, ref.name);
    && read.Found?
    && match ref.key
       case Some(key) => key in read.data && read.data[key] == text
       case None => defaultKey in read.data && read.data[defaultKey] == text
  }

  /** The cause of an error lies in what is read. */
  predicate IsCause(read: Read, error: Error) {
    match error
    case MapMissing => read.NotFound?
    case ReadError => read.ReadFailed?
    case KeyMissing => read.Found?
    case BadYaml => read.Found?
  }

  lemma LookupTells(maps: ConfigMaps, ref: ConfigMapRef, defaultKey: string)
    ensures var r := GetConfigMapKeyValue(maps, ref, defaultKey);
            match r
            case Success(text) => HasKey(maps, ref, defaultKey) && PointsTo(maps, ref, defaultKey, text)
            case Failure(error) =>
              !HasKey(maps, ref, defaultKey) && IsCause(maps(ref.namespace, ref.name), error) && error != BadYaml
  {
  }

  predicate Refers(options: Option<Options>) { options.Some? && options.value.configMapRef.Some? }

  predicate Resolved(maps: ConfigMaps, options: Option<Options>, defaultKey: string) {
    Refers(options) ==> HasKey(maps, options.value.configMapRef.value, defaultKey)
  }

  /** The text that the options refer to, if it is there, decodes. */
  ghost predicate Decoded(maps: ConfigMaps, decodes: string -> bool, options: Option<Options>, defaultKey: string) {
    Refers(options) ==>
      forall text :: PointsTo(maps, options.value.configMapRef.value, defaultKey, text) ==> decodes(text)
  }

  /** `text` is what the options refer to. */
  predicate IsText(maps: ConfigMaps, decodes: string -> bool, options: Option<Options>, defaultKey: string,
                   text: Option<string>)
  {
    if !Refers(options) then text.None?
    else
      text.Some? && PointsTo(maps, options.value.configMapRef.value, defaultKey, text.value) && decodes(text.value)
  }

  /** Why the options cannot be used. */
  ghost predicate IsProblem(maps: ConfigMaps, decodes: string -> bool, options: Option<Options>, defaultKey: string,
                            error: Error)
  {
    && Refers(options)
    && IsCause(maps(options.value.configMapRef.value.namespace, options.value.configMapRef.value.name), error)
    && (error == BadYaml <==> Resolved(maps, options, defaultKey))
    && (error == BadYaml ==> !Decoded(maps, decodes, options, defaultKey))
  }

  lemma OptionsTell(maps: ConfigMaps, decodes: string -> bool, options: Option<Options>, defaultKey: string)
    ensures var r := GetOptions(maps, decodes, if options.None? then None else options.value.configMapRef, defaultKey);
            && (r.Success? <==> Resolved(maps, options, defaultKey) && Decoded(maps, decodes, options, defaultKey))
            && (r.Success? ==> IsText(maps, decodes, options, defaultKey, r.value))
            && (r.Failure? ==> IsProblem(maps, decodes, options, defaultKey, r.error))
  {
    if Refers(options) {
      var ref := options.value.configMapRef.value;
      LookupTells(maps, ref, defaultKey);
      var text := GetConfigMapKeyValue(maps, ref, defaultKey);
      if text.Success? {
        assert PointsTo(maps, ref, defaultKey, text.value);
        assert forall t :: PointsTo(maps, ref, defaultKey, t) ==> t == text.value;
      }
    }
  }

  /** The two references of a ruleset, of which the rule options have a default key of their own. */
  predicate Resolves(maps: ConfigMaps, r: RulesetConfig) {
    r.options.Some? ==>
      && Resolved(maps, r.options.value.rules, r.id + "-rules")
      && Resolved(maps, r.options.value.ruleset, r.id)
  }

  ghost predicate Decodes(maps: ConfigMaps, yaml: Yaml, r: RulesetConfig) {
    r.options.Some? ==>
      && Decoded(maps, yaml.rules, r.options.value.rules, r.id + "-rules")
      && Decoded(maps, yaml.any, r.options.value.ruleset, r.id)
  }

  /** Looking up one ruleset. */
  lemma RulesetTells(maps: ConfigMaps, yaml: Yaml, r: RulesetConfig)
    ensures var rules, args := GetRuleOptions(maps, yaml, r, r.id), GetRulesetOptions(maps, yaml, r, r.id);
            && (rules.Success? && args.Success? <==> Resolves(maps, r) && Decodes(maps, yaml, r))
            && (rules.Success? && args.Success? ==> HasOptions(maps, yaml, r, rules.value, args.value))
            && (rules.Failure? ==> FailsWith(maps, yaml, r, rules.error))
            && (rules.Success? && args.Failure? ==> FailsWith(maps, yaml, r, args.error))
  {
    if r.options.Some? {
      OptionsTell(maps, yaml.rules, r.options.value.rules, r.id + "-rules");
      OptionsTell(maps, yaml.any, r.options.value.ruleset, r.id);
    }
  }

  predicate HasOptions(maps: ConfigMaps, yaml: Yaml, r: RulesetConfig, rules: Option<string>, args: Option<string>) {
    match r.options
    case None => rules.None? && args.None?
    case Some(options) =>
      && IsText(maps, yaml.rules, options.rules, r.id + "-rules", rules)
      && IsText(maps, yaml.any, options.ruleset, r.id, args)
  }

  /** The rule options count first. */
  ghost predicate FailsWith(maps: ConfigMaps, yaml: Yaml, r: RulesetConfig, error: Error) {
    && r.options.Some?
    && var rules, ruleset := r.options.value.rules, r.options.value.ruleset;
       if Resolved(maps, rules, r.id + "-rules") && Decoded(maps, yaml.rules, rules, r.id + "-rules")
       then IsProblem(maps, yaml.any, ruleset, r.id, error)
       else IsProblem(maps, yaml.rules, rules, r.id + "-rules", error)
  }

  predicate IsEntryFor(maps: ConfigMaps, yaml: Yaml, r: RulesetConfig, e: DikiRuleset) {
    && e.id == r.id && e.version == r.version
    && ((r.id == "disa-kubernetes-stig" && e.name == "DISA Kubernetes Security Technical Implementation Guide") ||
        (r.id == "security-hardened-k8s" && e.name == "Security Hardened Kubernetes Cluster"))
    && HasOptions(maps, yaml, r, e.ruleOptions, e.args)
  }

  /** A configuration has one entry for every supported ruleset, in the order of the spec, with the
      two texts that the ruleset refers to. */
  lemma {:induction false} EntriesFollowSpec(maps: ConfigMaps, yaml: Yaml, rulesets: seq<RulesetConfig>)
    returns (at: seq<nat>)
    requires Entries(maps, yaml, rulesets).Success?
    ensures var entries := Entries(maps, yaml, rulesets).value;
            && |at| == |entries|
            && forall k :: 0 <= k < |at| ==> at[k] < |rulesets| && IsEntryFor(maps, yaml, rulesets[at[k]], entries[k])
    ensures forall k, l :: 0 <= k < l < |at| ==> at[k] < at[l]
    ensures forall i :: 0 <= i < |rulesets| ==>
      (rulesets[i].id == "disa-kubernetes-stig" || rulesets[i].id == "security-hardened-k8s" <==> i in at)
  {
    if rulesets == [] {
      at := [];
    } else {
      var n := |rulesets| - 1;
      at := EntriesFollowSpec(maps, yaml, rulesets[..n]);
      if Supported(rulesets[n]) {
        RulesetTells(maps, yaml, rulesets[n]);
        at := at + [n];
      }
    }
  }

  /** A failure is that of the first supported ruleset that cannot be used. */
  lemma {:induction false} FailureIsFirstError(maps: ConfigMaps, yaml: Yaml, rulesets: seq<RulesetConfig>)
    returns (i: nat)
    requires Entries(maps, yaml, rulesets).Failure?
    ensures i < |rulesets| && Supported(rulesets[i]) && Entries(maps, yaml, rulesets[..i]).Success?
    ensures FailsWith(maps, yaml, rulesets[i], Entries(maps, yaml, rulesets).error)
  {
    var init := rulesets[..|rulesets| - 1];
    if Entries(maps, yaml, init).Failure? {
      i := FailureIsFirstError(maps, yaml, init);
      assert init[..i] == rulesets[..i];
    } else {
      i := |init|;
      RulesetTells(maps, yaml, rulesets[i]);
    }
  }

  /** Builds the entries ruleset by ruleset and stops at the first error. */
  method BuildDikiConfig(maps: ConfigMaps, yaml: Yaml, spec: Spec) returns (r: Result<seq<DikiRuleset>>)
    ensures r == Entries(maps, yaml, spec.rulesets)
  {
    var entries: seq<DikiRuleset> := [];
    var rulesets := spec.rulesets;
    for i := 0 to |rulesets|
      invariant Entries(maps, yaml, rulesets[..i]) == Success(entries)
    {
      var ruleset := rulesets[i];
      assert rulesets[..i + 1][..i] == rulesets[..i];
      if ruleset.id == DISA_ID || ruleset.id == SECURITY_HARDENED_ID {
        var name := if ruleset.id == DISA_ID then DISA_NAME else SECURITY_HARDENED_NAME;
        var rules := GetRuleOptions(maps, yaml, ruleset, ruleset.id);
        if rules.Failure? {
          ErrorsStay(maps, yaml, rulesets, i + 1);
          return Failure(rules.error);
        }
        var options := GetRulesetOptions(maps, yaml, ruleset, ruleset.id);
        if options.Failure? {
          ErrorsStay(maps, yaml, rulesets, i + 1);
          return Failure(options.error);
        }
        entries := entries + [DikiRuleset(ruleset.id, name, ruleset.version, options.value, rules.value)];
      }
    }
    assert rulesets[..|rulesets|] == rulesets;
    r := Success(entries);
  }
}
