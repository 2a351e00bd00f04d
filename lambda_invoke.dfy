/** The `LambdaInvoke` task state. Its constructor rewrites a whole-input payload
    (`Payload: "$"`) into the ASL path form (`"Payload.$": "$"`) inside the caller's
    own params object, then hands the params to the task base class with a default
    `Resource`. Each state contributes one role policy allowing it to invoke its
    function. The task base class is not part of this model: its serialisation and
    its own permissions are parameters. */
module LambdaInvokeTask {
  import opened Common
  import opened AslJson
  import opened Iam

  const DefaultResource := "arn:aws:states:::lambda:invoke"
  const InvokeAction := "lambda:InvokeFunction"

  /** A JavaScript object held by reference, so that the caller sees its mutation. */
  class ObjectRef {
    var fields: Obj

    constructor(fields: Obj)
      ensures this.fields == fields
    {
      this.fields := fields;
    }
  }

  /** `Parameters.Payload === "$"`. */
  predicate WholeInputPayload(parameters: Obj)
  {
    Get(parameters, "Payload") == Some(JStr("$"))
  }

  /** `delete Payload; Parameters["Payload.$"] = "$"` when the payload is `"$"`. */
  function RewritePayload(parameters: Obj): Obj
  {
    if WholeInputPayload(parameters) then Put(Delete(parameters, "Payload"), "Payload.$", JStr("$"))
    else parameters
  }

  /** A whole-input payload loses its `Payload` key and gains `"Payload.$": "$"`,
      with every other key unchanged; any other payload leaves the parameters as
      they are. */
  lemma RewritePayloadSpec(parameters: Obj, k: string)
    requires WellFormed(parameters)
    ensures WellFormed(RewritePayload(parameters))
    ensures WholeInputPayload(parameters) ==>
      "Payload" !in Keys(RewritePayload(parameters)) &&
      Get(RewritePayload(parameters), "Payload.$") == Some(JStr("$")) &&
      (k != "Payload" && k != "Payload.$" ==> Get(RewritePayload(parameters), k) == Get(parameters, k))
    ensures !WholeInputPayload(parameters) ==> RewritePayload(parameters) == parameters
  {
    if WholeInputPayload(parameters) {
      var deleted := Delete(parameters, "Payload");
      DeleteWellFormed(parameters, "Payload");
      PutWellFormed(deleted, "Payload.$", JStr("$"));
      PutGet(deleted, "Payload.$", JStr("$"), "Payload.$");
      if k != "Payload" && k != "Payload.$" {
        PutGet(deleted, "Payload.$", JStr("$"), k);
        DeleteGet(parameters, "Payload", k);
      }
    }
  }

  /** A second rewrite changes nothing: the rewritten parameters have no `Payload`. */
  lemma RewritePayloadIdempotent(parameters: Obj)
    ensures RewritePayload(RewritePayload(parameters)) == RewritePayload(parameters)
  {
    if WholeInputPayload(parameters) {
      var deleted := Delete(parameters, "Payload");
      PutGet(deleted, "Payload.$", JStr("$"), "Payload");
    }
  }

  /** The caller's params after the constructor: only the nested `Parameters`
      object changes, and only by `RewritePayload`. */
  function RewriteParams(params: Obj): Obj
  {
    match Get(params, "Parameters")
    case Some(JObj(parameters)) => Put(params, "Parameters", JObj(RewritePayload(parameters)))
    case _ => params
  }

  /** `{Resource: DefaultResource, ...params}`: the params handed to the task base. */
  function TaskParams(params: Obj): Obj
  {
    Spread([Field("Resource", JStr(DefaultResource))], params)
  }

  /** `Resource` comes first; the caller's `Resource` wins over the default, and
      every other key has the caller's value. */
  lemma TaskParamsSpec(params: Obj, k: string)
    requires WellFormed(params)
    ensures |TaskParams(params)| >= 1 && TaskParams(params)[0].key == "Resource"
    ensures Get(TaskParams(params), "Resource") ==
      if "Resource" in Keys(params) then Get(params, "Resource") else Some(JStr(DefaultResource))
    ensures k != "Resource" ==> Get(TaskParams(params), k) == Get(params, k)
    ensures WellFormed(TaskParams(params))
  {
    var init := [Field("Resource", JStr(DefaultResource))];
    SpreadKeys(init, params);
    SpreadGet(init, params, "Resource");
    SpreadGet(init, params, k);
    SpreadWellFormed(init, params);
  }

  /** The logical name of a state's role policy: machine prefix, then state name. */
  function PolicyName(prefix: string, stateName: string): string
  {
    prefix + stateName + "SfnRolePolicy"
  }

  /** Two states with different names in one machine get different policies, so
      nothing merges the policies of two states invoking the same function. */
  lemma PolicyNamesDistinct(prefix: string, a: string, b: string)
    requires a != b
    ensures PolicyName(prefix, a) != PolicyName(prefix, b)
  {
    var pa, pb := PolicyName(prefix, a), PolicyName(prefix, b);
    assert pa[|prefix|..|prefix| + |a|] == a;
    if |a| == |b| {
      assert pb[|prefix|..|prefix| + |b|] == b;
    }
  }

  class LambdaInvoke {
    const name: string
    /** The params as stored by the task base class. */
    const params: Obj

    /** Rewrites the payload inside the caller's params, then stores the params with
        the default `Resource` before them. */
    constructor(name: string, callerParams: ObjectRef)
      modifies callerParams
      ensures callerParams.fields == RewriteParams(old(callerParams.fields))
      ensures this.name == name && this.params == TaskParams(callerParams.fields)
    {
      callerParams.fields := RewriteParams(callerParams.fields);
      this.name := name;
      this.params := TaskParams(callerParams.fields);
    }

    /** `Parameters.FunctionName` of the stored params, None when undefined. */
    function FunctionName(): Option<Json>
    {
      match Get(params, "Parameters")
      case Some(JObj(parameters)) => Get(parameters, "FunctionName")
      case _ => None
    }

    /** The policy this state adds to the machine's role. */
    function InvokePolicy(role: RoleRef, prefix: string): (r: Resource)
      ensures r.RolePolicy? && r.role == role && r.version == PolicyVersion
      ensures r.logicalName == PolicyName(prefix, name)
      ensures r.statements == [Statement("Allow", [InvokeAction], FunctionName())]
    {
      RolePolicy(PolicyName(prefix, name), role, PolicyVersion,
        [Statement("Allow", [InvokeAction], FunctionName())])
    }

    /** The base task's permissions, then exactly one invoke policy. */
    method CreatePermissions(registry: Registry, role: RoleRef, prefix: string, basePermissions: seq<Resource>)
      modifies registry
      ensures registry.resources == old(registry.resources) + basePermissions + [InvokePolicy(role, prefix)]
    {
      registry.Declare(basePermissions);
      registry.Declare([InvokePolicy(role, prefix)]);
    }

    /** `{...super.toJSON()}` is a copy of the base task serialisation. */
    function ToJson(base: Obj): (r: Obj)
      ensures WellFormed(base) ==> r == base
    {
      if WellFormed(base) then (SpreadIntoEmpty(base); Spread([], base)) else Spread([], base)
    }
  }

  /** The function a state invokes is the one the caller named: the payload rewrite
      never touches `FunctionName`, and the default `Resource` is not a parameter. */
  lemma FunctionNameKept(params: Obj, parameters: Obj)
    requires WellFormed(params) && WellFormed(parameters)
    requires Get(params, "Parameters") == Some(JObj(parameters))
    ensures Get(TaskParams(RewriteParams(params)), "Parameters") == Some(JObj(RewritePayload(parameters)))
    ensures Get(RewritePayload(parameters), "FunctionName") == Get(parameters, "FunctionName")
  {
    var rewritten := Put(params, "Parameters", JObj(RewritePayload(parameters)));
    PutGet(params, "Parameters", JObj(RewritePayload(parameters)), "Parameters");
    PutWellFormed(params, "Parameters", JObj(RewritePayload(parameters)));
    TaskParamsSpec(rewritten, "Parameters");
    RewritePayloadSpec(parameters, "FunctionName");
  }
}
