/** The admission webhook for compliance scans, and its agreement with what the controller later
    looks up. */
module Admission {
  import opened Prelude
  import opened DikiConfig

  datatype Operation = Create | Update | Other

  /** A request; a scan that does not decode is absent. */
  datatype Request = Request(operation: Operation, scan: Option<Spec>, oldScan: Option<Spec>)

  datatype Field = RulesetField | RulesField
  datatype Problem = MapDoesNotExist | KeyDoesNotExist | InternalError

  /** An error names the ruleset by its index, and the field. */
  datatype FieldError = FieldError(index: nat, field: Field, problem: Problem)

  datatype Response = Allowed | SpecChanged | Denied(errors: seq<FieldError>) | BadRequest

  // ---------------------------------------------------------------- references

  /** A reference to a key of a ConfigMap, and where in the spec it stands. */
  datatype Reference = Reference(index: nat, field: Field, target: ConfigMapRef, defaultKey: string)

  /** The references of one ruleset, in the order in which the webhook checks them. */
  function ReferencesOf(r: RulesetConfig, index: nat): seq<Reference> {
    (if RulesetRef(r).Some? then [Reference(index, RulesetField, RulesetRef(r).value, r.id)] else []) +
    (if RulesRef(r).Some? then [Reference(index, RulesField, RulesRef(r).value, r.id + RULE_OPTIONS_SUFFIX)] else [])
  }

  function References(rulesets: seq<RulesetConfig>): seq<Reference> {
    if rulesets == [] then []
    else
      var n := |rulesets| - 1;
      References(rulesets[..n]) + ReferencesOf(rulesets[n], n)
  }

  function Lookup(maps: ConfigMaps, r: Reference): Result<string> {
    GetConfigMapKeyValue(maps, r.target, r.defaultKey)
  }

  /** The references that the controller could not resolve. */
  function Bad(maps: ConfigMaps, rs: seq<Reference>): seq<Reference> {
    if rs == [] then []
    else
      var last := rs[|rs| - 1];
      Bad(maps, rs[..|rs| - 1]) + if Lookup(maps, last).Failure? then [last] else []
  }

  function ProblemOf(e: Error): Problem {
    match e
    case MapMissing => MapDoesNotExist
    case KeyMissing => KeyDoesNotExist
    case _ => InternalError
  }

  /** What the webhook should say about a reference that cannot be resolved. */
  function ErrorFor(maps: ConfigMaps, r: Reference): FieldError
    requires Lookup(maps, r).Failure?
  {
    FieldError(r.index, r.field, ProblemOf(Lookup(maps, r).error))
  }

  /** The errors are about the bad references, one for each and in their order. */
  ghost predicate Reports(maps: ConfigMaps, rs: seq<Reference>, errors: seq<FieldError>) {
    var bad := Bad(maps, rs);
    && |errors| == |bad|
    && forall k :: 0 <= k < |bad| ==> Lookup(maps, bad[k]).Failure? && errors[k] == ErrorFor(maps, bad[k])
  }

  lemma {:induction false} BadConcat(maps: ConfigMaps, a: seq<Reference>, b: seq<Reference>)
    ensures Bad(maps, a + b) == Bad(maps, a) + Bad(maps, b)
  {
    if b == [] {
      assert a + b == a;
    } else {
      var n := |b| - 1;
      assert (a + b)[..|a + b| - 1] == a + b[..n];
      BadConcat(maps, a, b[..n]);
    }
  }

  lemma {:induction false} BadAreTheFailures(maps: ConfigMaps, rs: seq<Reference>)
    ensures forall r :: r in Bad(maps, rs) <==> r in rs && Lookup(maps, r).Failure?
  {
    if rs != [] {
      var n := |rs| - 1;
      BadAreTheFailures(maps, rs[..n]);
      assert forall r :: r in rs <==> r in rs[..n] || r == rs[n];
    }
  }

  // ---------------------------------------------------------------- the webhook

  method ValidateConfigMapReference(maps: ConfigMaps, target: ConfigMapRef, defaultKey: string, index: nat,
                                    field: Field)
    returns (errors: seq<FieldError>)
    ensures Reports(maps, [Reference(index, field, target, defaultKey)], errors)
    ensures errors == [] <==> HasKey(maps, target, defaultKey)
    ensures errors != [] ==>
      && |errors| == 1 && errors[0].index == index && errors[0].field == field
      && match maps(target.namespace, target.name)
         case NotFound => errors[0].problem == MapDoesNotExist
         case ReadFailed(_) => errors[0].problem == InternalError
         case Found(_) => errors[0].problem == KeyDoesNotExist
  {
    assert [Reference(index, field, target, defaultKey)][..0] == [];
    var read := maps(target.namespace, target.name);
    if read.NotFound? {
      return [FieldError(index, field, MapDoesNotExist)];
    }
    if read.ReadFailed? {
      return [FieldError(index, field, InternalError)];
    }
    var key := defaultKey;
    if target.key.Some? {
      key := target.key.value;
    }
    if key !in read.data {
      return [FieldError(index, field, KeyDoesNotExist)];
    }
    return [];
  }

  /** Errors for two lists of references, one after the other. */
  lemma ReportsConcat(maps: ConfigMaps, a: seq<Reference>, ea: seq<FieldError>, b: seq<Reference>, eb: seq<FieldError>)
    requires Reports(maps, a, ea) && Reports(maps, b, eb)
    ensures Reports(maps, a + b, ea + eb)
  {
    BadConcat(maps, a, b);
  }

  method ValidateRuleset(maps: ConfigMaps, r: RulesetConfig, index: nat) returns (errors: seq<FieldError>)
    ensures Reports(maps, ReferencesOf(r, index), errors)
  {
    errors := [];
    if r.options.None? { return; }
    ghost var seen: seq<Reference> := [];
    if r.options.value.ruleset.Some? && r.options.value.ruleset.value.configMapRef.Some? {
      var target := r.options.value.ruleset.value.configMapRef.value;
      var more := ValidateConfigMapReference(maps, target, r.id, index, RulesetField);
      ReportsConcat(maps, seen, errors, [Reference(index, RulesetField, target, r.id)], more);
      seen, errors := seen + [Reference(index, RulesetField, target, r.id)], errors + more;
    }
    if r.options.value.rules.Some? && r.options.value.rules.value.configMapRef.Some? {
      var target := r.options.value.rules.value.configMapRef.value;
      var key := r.id + RULE_OPTIONS_SUFFIX;
      var more := ValidateConfigMapReference(maps, target, key, index, RulesField);
      ReportsConcat(maps, seen, errors, [Reference(index, RulesField, target, key)], more);
      seen, errors := seen + [Reference(index, RulesField, target, key)], errors + more;
    }
    assert seen == ReferencesOf(r, index);
  }

  /** What the webhook answers, stated over the references of the scan. */
  ghost predicate Answers(maps: ConfigMaps, req: Request, resp: Response) {
    if req.scan.None? || (req.operation == Update && req.oldScan.None?) then resp == BadRequest
    else match req.operation
      case Update => resp == if req.oldScan == req.scan then Allowed else SpecChanged
      case Other => resp == Allowed
      case Create =>
        var rs := References(req.scan.value.rulesets);
        if Bad(maps, rs) == [] then resp == Allowed else resp.Denied? && Reports(maps, rs, resp.errors)
  }

  method Handle(maps: ConfigMaps, req: Request) returns (resp: Response)
    ensures Answers(maps, req, resp)
  {
    if req.scan.None? { return BadRequest; }
    var spec := req.scan.value;
    if req.operation == Update {
      if req.oldScan.None? { return BadRequest; }
      if req.oldScan.value != spec { return SpecChanged; }
      return Allowed;
    }
    if req.operation == Create {
      var errors: seq<FieldError> := [];
      var rulesets := spec.rulesets;
      for i := 0 to |rulesets|
        invariant Reports(maps, References(rulesets[..i]), errors)
      {
        var more := ValidateRuleset(maps, rulesets[i], i);
        assert rulesets[..i + 1][..i] == rulesets[..i];
        ReportsConcat(maps, References(rulesets[..i]), errors, ReferencesOf(rulesets[i], i), more);
        errors := errors + more;
      }
      assert rulesets[..|rulesets|] == rulesets;
      if |errors| > 0 { return Denied(errors); }
      return Allowed;
    }
    return Allowed;
  }

  // ---------------------------------------------------------------- what a denial says

  /** Where an error stands in the spec: ruleset by ruleset, its ruleset options first. */
  function Place(index: nat, field: Field): nat { 2 * index + if field == RulesField then 1 else 0 }

  ghost predicate InOrder(rs: seq<Reference>) {
    forall i, j :: 0 <= i < j < |rs| ==> Place(rs[i].index, rs[i].field) < Place(rs[j].index, rs[j].field)
  }

  lemma InOrderConcat(a: seq<Reference>, b: seq<Reference>, place: nat)
    requires InOrder(a) && InOrder(b)
    requires forall x :: x in a ==> Place(x.index, x.field) < place
    requires forall x :: x in b ==> place <= Place(x.index, x.field)
    ensures InOrder(a + b)
  {
    var rs := a + b;
    forall i, j | 0 <= i < j < |rs| ensures Place(rs[i].index, rs[i].field) < Place(rs[j].index, rs[j].field) {
      if i < |a| && |a| <= j { assert rs[i] in a && rs[j] in b; }
    }
  }

  lemma {:induction false} ReferencesAreInOrder(rulesets: seq<RulesetConfig>)
    ensures InOrder(References(rulesets))
    ensures forall x :: x in References(rulesets) ==> x.index < |rulesets|
  {
    if rulesets != [] {
      var n := |rulesets| - 1;
      ReferencesAreInOrder(rulesets[..n]);
      InOrderConcat(References(rulesets[..n]), ReferencesOf(rulesets[n], n), 2 * n);
    }
  }

  lemma {:induction false} BadKeepOrder(maps: ConfigMaps, rs: seq<Reference>)
    requires InOrder(rs)
    ensures InOrder(Bad(maps, rs))
  {
    if rs != [] {
      var n := |rs| - 1;
      BadKeepOrder(maps, rs[..n]);
      BadAreTheFailures(maps, rs[..n]);
      forall i | 0 <= i < |Bad(maps, rs[..n])|
        ensures Place(Bad(maps, rs[..n])[i].index, Bad(maps, rs[..n])[i].field) < Place(rs[n].index, rs[n].field)
      {
        assert Bad(maps, rs[..n])[i] in rs[..n];
      }
    }
  }

  /** The options of a field, and the key that they fall back to. */
  predicate Stands(r: RulesetConfig, field: Field, target: ConfigMapRef, defaultKey: string) {
    && r.options.Some?
    && match field
       case RulesetField =>
         Refers(r.options.value.ruleset) && target == r.options.value.ruleset.value.configMapRef.value
         && defaultKey == r.id
       case RulesField =>
         Refers(r.options.value.rules) && target == r.options.value.rules.value.configMapRef.value
         && defaultKey == r.id + "-rules"
  }

  lemma RulesetStands(r: RulesetConfig, index: nat, x: Reference)
    ensures x in ReferencesOf(r, index) <==> x.index == index && Stands(r, x.field, x.target, x.defaultKey)
  {
  }

  lemma {:induction false} ReferencesStand(rulesets: seq<RulesetConfig>, x: Reference)
    ensures x in References(rulesets) <==>
              x.index < |rulesets| && Stands(rulesets[x.index], x.field, x.target, x.defaultKey)
  {
    if rulesets != [] {
      var n := |rulesets| - 1;
      ReferencesStand(rulesets[..n], x);
      RulesetStands(rulesets[n], n, x);
    }
  }

  /** An error of a denial is about a reference that cannot be resolved, and says why. */
  ghost predicate Tells(maps: ConfigMaps, rulesets: seq<RulesetConfig>, e: FieldError) {
    && e.index < |rulesets|
    && exists target, defaultKey ::
         && Stands(rulesets[e.index], e.field, target, defaultKey) && !HasKey(maps, target, defaultKey)
         && match maps(target.namespace, target.name)
            case NotFound => e.problem == MapDoesNotExist
            case ReadFailed(_) => e.problem == InternalError
            case Found(_) => e.problem == KeyDoesNotExist
  }

  /** A denied Create lists, in the order of the spec, one error for every reference that cannot be
      resolved, and no others. */
  lemma DenialTells(maps: ConfigMaps, spec: Spec, resp: Response)
    requires Answers(maps, Request(Create, Some(spec), None), resp) && resp.Denied?
    ensures forall e :: e in resp.errors ==> Tells(maps, spec.rulesets, e)
    ensures forall i, j :: 0 <= i < j < |resp.errors| ==>
      Place(resp.errors[i].index, resp.errors[i].field) < Place(resp.errors[j].index, resp.errors[j].field)
    ensures forall i: nat, field, target, key ::
      i < |spec.rulesets| && Stands(spec.rulesets[i], field, target, key) && !HasKey(maps, target, key) ==>
        exists e :: e in resp.errors && e.index == i && e.field == field
  {
    var rs := References(spec.rulesets);
    ReferencesAreInOrder(spec.rulesets);
    BadKeepOrder(maps, rs);
    BadAreTheFailures(maps, rs);
    forall e | e in resp.errors ensures Tells(maps, spec.rulesets, e) {
      var k :| 0 <= k < |resp.errors| && resp.errors[k] == e;
      ErrorTells(maps, spec.rulesets, Bad(maps, rs)[k]);
    }
    forall i: nat, field, target, key |
      i < |spec.rulesets| && Stands(spec.rulesets[i], field, target, key) && !HasKey(maps, target, key)
      ensures exists e :: e in resp.errors && e.index == i && e.field == field
    {
      var x := Reference(i, field, target, key);
      ReferencesStand(spec.rulesets, x);
      LookupTells(maps, target, key);
      var k :| 0 <= k < |Bad(maps, rs)| && Bad(maps, rs)[k] == x;
      assert resp.errors[k] in resp.errors;
    }
  }

  lemma ErrorTells(maps: ConfigMaps, rulesets: seq<RulesetConfig>, x: Reference)
    requires x in Bad(maps, References(rulesets)) && Lookup(maps, x).Failure?
    ensures Tells(maps, rulesets, ErrorFor(maps, x))
  {
    BadAreTheFailures(maps, References(rulesets));
    ReferencesStand(rulesets, x);
    LookupTells(maps, x.target, x.defaultKey);
  }

  /** Requests that are neither a Create nor an Update are allowed, and an Update exactly if it
      leaves the spec alone. */
  lemma OtherAnswers(maps: ConfigMaps, req: Request, resp: Response)
    requires Answers(maps, req, resp) && req.operation != Create
    ensures resp == Allowed <==> req.scan.Some? && (req.operation == Update ==> req.oldScan == req.scan)
  {
  }

  // ---------------------------------------------------------------- agreement with the controller

  lemma RulesetResolves(maps: ConfigMaps, r: RulesetConfig, index: nat)
    ensures Bad(maps, ReferencesOf(r, index)) == [] <==> Resolves(maps, r)
  {
    BadAreTheFailures(maps, ReferencesOf(r, index));
    if RulesetRef(r).Some? {
      LookupTells(maps, RulesetRef(r).value, r.id);
      assert Reference(index, RulesetField, RulesetRef(r).value, r.id) in ReferencesOf(r, index);
    }
    if RulesRef(r).Some? {
      LookupTells(maps, RulesRef(r).value, r.id + RULE_OPTIONS_SUFFIX);
      assert Reference(index, RulesField, RulesRef(r).value, r.id + RULE_OPTIONS_SUFFIX) in ReferencesOf(r, index);
    }
    if Bad(maps, ReferencesOf(r, index)) != [] {
      assert Bad(maps, ReferencesOf(r, index))[0] in Bad(maps, ReferencesOf(r, index));
    }
  }

  lemma {:induction false} RulesetsResolve(maps: ConfigMaps, rulesets: seq<RulesetConfig>)
    ensures Bad(maps, References(rulesets)) == [] <==> forall r :: r in rulesets ==> Resolves(maps, r)
  {
    if rulesets != [] {
      var n := |rulesets| - 1;
      RulesetsResolve(maps, rulesets[..n]);
      RulesetResolves(maps, rulesets[n], n);
      BadConcat(maps, References(rulesets[..n]), ReferencesOf(rulesets[n], n));
      assert forall r :: r in rulesets <==> r in rulesets[..n] || r == rulesets[n];
    }
  }

  /** The webhook allows a Create exactly when every key that the scan references can be read. */
  lemma AllowedIffResolved(maps: ConfigMaps, spec: Spec, resp: Response)
    requires Answers(maps, Request(Create, Some(spec), None), resp)
    ensures resp == Allowed <==> forall r :: r in spec.rulesets ==> Resolves(maps, r)
  {
    RulesetsResolve(maps, spec.rulesets);
  }

  /** The deployment succeeds exactly when every key that the supported rulesets reference can be
      read and its text decodes. If only decoding is the matter, it fails with that error. */
  lemma {:induction false} DeployableIff(maps: ConfigMaps, yaml: Yaml, rulesets: seq<RulesetConfig>)
    ensures Entries(maps, yaml, rulesets).Success? <==>
              forall r :: r in rulesets && Supported(r) ==> Resolves(maps, r) && Decodes(maps, yaml, r)
    ensures (forall r :: r in rulesets && Supported(r) ==> Resolves(maps, r)) ==>
              Entries(maps, yaml, rulesets).Success? || Entries(maps, yaml, rulesets) == Failure(BadYaml)
  {
    if rulesets != [] {
      var n := |rulesets| - 1;
      DeployableIff(maps, yaml, rulesets[..n]);
      RulesetTells(maps, yaml, rulesets[n]);
      assert forall r :: r in rulesets <==> r in rulesets[..n] || r == rulesets[n];
    }
  }

  /** An allowed Create means that no lookup of the deployment fails, as long as the ConfigMaps
      stay as they are: the scan deploys exactly when the texts of its supported rulesets decode. */
  lemma AllowedScansDeploy(maps: ConfigMaps, yaml: Yaml, spec: Spec, resp: Response)
    requires Answers(maps, Request(Create, Some(spec), None), resp) && resp == Allowed
    ensures var r := Entries(maps, yaml, spec.rulesets);
            && (r.Success? || r.error == BadYaml)
            && (r.Success? <==> forall x :: x in spec.rulesets && Supported(x) ==> Decodes(maps, yaml, x))
  {
    AllowedIffResolved(maps, spec, resp);
    DeployableIff(maps, yaml, spec.rulesets);
  }

  /** For specs with supported rulesets only: what can be deployed is exactly what the webhook
      allows and decodes. */
  lemma AllowedIffDeployable(maps: ConfigMaps, yaml: Yaml, spec: Spec, resp: Response)
    requires Answers(maps, Request(Create, Some(spec), None), resp)
    requires forall r :: r in spec.rulesets ==> Supported(r)
    ensures Entries(maps, yaml, spec.rulesets).Success? <==>
              resp == Allowed && forall r :: r in spec.rulesets ==> Decodes(maps, yaml, r)
  {
    AllowedIffResolved(maps, spec, resp);
    DeployableIff(maps, yaml, spec.rulesets);
  }

  /** For all other specs: a deployable scan is denied exactly when a ruleset that the controller
      does not support references a key that cannot be read. */
  lemma DeniedButDeployableIff(maps: ConfigMaps, yaml: Yaml, spec: Spec, resp: Response)
    requires Answers(maps, Request(Create, Some(spec), None), resp)
    requires Entries(maps, yaml, spec.rulesets).Success?
    ensures resp.Denied? <==> exists r :: r in spec.rulesets && !Supported(r) && !Resolves(maps, r)
  {
    AllowedIffResolved(maps, spec, resp);
    DeployableIff(maps, yaml, spec.rulesets);
  }

  /** A ruleset that the controller does not support is checked although it is never looked up. */
  lemma UnsupportedIsStricter(maps: ConfigMaps, yaml: Yaml, target: ConfigMapRef, resp: Response)
    requires maps(target.namespace, target.name) == NotFound
    requires var r := RulesetConfig("other", "v1", Some(RulesetOptions(None, Some(Options(Some(target))))));
             Answers(maps, Request(Create, Some(Spec([r], [])), None), resp)
    ensures resp.Denied?
    ensures var r := RulesetConfig("other", "v1", Some(RulesetOptions(None, Some(Options(Some(target))))));
            Entries(maps, yaml, [r]) == Success([])
  {
    var r := RulesetConfig("other", "v1", Some(RulesetOptions(None, Some(Options(Some(target))))));
    AllowedIffResolved(maps, Spec([r], []), resp);
    assert r in [r] && !Resolves(maps, r);
    assert [r][..0] == [];
  }

  // ---------------------------------------------------------------- the life of a scan

  /** The spec that the server stores after an answered update request for the stored scan. */
  ghost predicate Stores(maps: ConfigMaps, stored: Spec, scan: Option<Spec>, stored': Spec) {
    exists resp ::
      && Answers(maps, Request(Update, scan, Some(stored)), resp)
      && stored' == if resp == Allowed && scan.Some? then scan.value else stored
  }

  /** No sequence of updates changes the spec that was admitted. */
  lemma {:induction false} SpecNeverChanges(maps: ConfigMaps, specs: seq<Spec>, updates: seq<Option<Spec>>, i: nat)
    requires |specs| == |updates| + 1 && i < |specs|
    requires forall k :: 0 <= k < |updates| ==> Stores(maps, specs[k], updates[k], specs[k + 1])
    ensures specs[i] == specs[0]
  {
    if i > 0 {
      SpecNeverChanges(maps, specs, updates, i - 1);
      assert Stores(maps, specs[i - 1], updates[i - 1], specs[i]);
    }
  }

  /** At any time in the life of an admitted scan its deployment finds what it looks up. */
  lemma AdmittedScansDeployForLife(maps: ConfigMaps, yaml: Yaml, resp: Response, specs: seq<Spec>,
                                   updates: seq<Option<Spec>>, i: nat)
    requires |specs| == |updates| + 1 && i < |specs|
    requires Answers(maps, Request(Create, Some(specs[0]), None), resp) && resp == Allowed
    requires forall k :: 0 <= k < |updates| ==> Stores(maps, specs[k], updates[k], specs[k + 1])
    ensures var r := Entries(maps, yaml, specs[i].rulesets);
            && (r.Success? || r.error == BadYaml)
            && (r.Success? <==> forall x :: x in specs[0].rulesets && Supported(x) ==> Decodes(maps, yaml, x))
  {
    SpecNeverChanges(maps, specs, updates, i);
    AllowedScansDeploy(maps, yaml, specs[0], resp);
  }
}
