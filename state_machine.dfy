/** The `StateMachine` component: it picks or creates the role the machine runs
    under, declares the machine with the chain's serialised definition, grants the
    role `events:*` and then the chain's own permissions. Its link grants
    `states:*` on the machine and on its executions. The chain's classes are not
    part of this model: a chain is its serialised definition and its permission
    contribution. The deployed ARN and id are outputs of the cloud, so they are
    constructor parameters here. */
module StateMachines {
  import opened Common
  import opened AslJson
  import opened JsText
  import opened Iam

  /** What the machine needs of its first state: the serialised definition and
      the resources its `createPermissions(role, prefix)` declares. */
  datatype Chainable = Chainable(definition: Json, permissions: (RoleRef, string) -> seq<Resource>)

  datatype App = App(name: string, stage: string)

  /** A linked permission: these actions on these resources. */
  datatype Permission = Permission(actions: seq<string>, resources: seq<string>)

  /** What linking a function to the machine gives it. */
  datatype LinkInfo = LinkInfo(id: string, arn: string, grants: seq<Permission>)

  /** A given (non-empty) role ARN is reused; otherwise a role trusting the
      regional Step Functions service is created. */
  function ChooseRole(app: App, name: string, roleArn: Option<string>, region: string): (r: RoleRef)
    ensures r.ImportedRole? <==> roleArn.Some? && roleArn.value != ""
    ensures r.ImportedRole? ==> r.arn == roleArn.value
    ensures r.CreatedRole? ==>
      r.roleName == app.name + "-" + app.stage + "-" + name &&
      r.trustedService == "states." + region + ".amazonaws.com"
  {
    if roleArn.Some? && roleArn.value != "" then
      ImportedRole(app.name + "-" + app.stage + "-" + name + "SfnRole", roleArn.value)
    else
      CreatedRole(name + "SfnRole", app.name + "-" + app.stage + "-" + name, "states." + region + ".amazonaws.com")
  }

  /** The role policy every machine's role receives. */
  function EventsPolicy(name: string, role: RoleRef): Resource
  {
    RolePolicy(name + "SfnRolePolicy", role, PolicyVersion, [Statement("Allow", ["events:*"], Some(JStr("*")))])
  }

  /** Everything the constructor declares, in order: the role when it is created,
      the machine, the events policy, then the chain's permissions with the machine
      name as prefix. */
  function Declared(name: string, role: RoleRef, chain: Chainable): seq<Resource>
  {
    (if role.CreatedRole? then [Role(role)] else [])
    + [StateMachineResource(name + "StateMachine", name, chain.definition, role), EventsPolicy(name, role)]
    + chain.permissions(role, name)
  }

  /** The machine carries the chain's definition and runs under the chosen role; the
      role gets `events:*` on everything; the chain's permissions follow, declared
      once and unchanged; a role is created only when none was given. */
  lemma DeclaredSpec(name: string, role: RoleRef, chain: Chainable)
    ensures var d := Declared(name, role, chain);
      var n := if role.CreatedRole? then 1 else 0;
      |d| == n + 2 + |chain.permissions(role, name)| &&
      d[n] == StateMachineResource(name + "StateMachine", name, chain.definition, role) &&
      d[n + 1].RolePolicy? && d[n + 1].role == role &&
      d[n + 1].statements == [Statement("Allow", ["events:*"], Some(JStr("*")))] &&
      d[n + 2..] == chain.permissions(role, name) &&
      (Role(role) in d[..n + 2] <==> role.CreatedRole?)
  {
    var d := Declared(name, role, chain);
    var n := if role.CreatedRole? then 1 else 0;
    assert d[..n + 2] == if role.CreatedRole? then [Role(role), d[1], d[2]] else [d[0], d[1]];
  }

  /** `arn.replace("stateMachine", "execution") + ":*"`: the ARN pattern of the
      machine's executions. */
  function ExecutionsArn(arn: string): string
  {
    ReplaceFirst(arn, "stateMachine", "execution") + ":*"
  }

  /** The executions pattern replaces the first `stateMachine` of the ARN, keeping
      the text around it; an ARN without one is only suffixed. */
  lemma ExecutionsArnSpec(arn: string)
    ensures (forall j :: 0 <= j <= |arn| ==> !OccursAt(arn, "stateMachine", j)) ==> ExecutionsArn(arn) == arn + ":*"
    ensures forall i: nat :: OccursAt(arn, "stateMachine", i) && (forall j :: 0 <= j < i ==> !OccursAt(arn, "stateMachine", j)) ==>
      ExecutionsArn(arn) == arn[..i] + "execution" + arn[i + 12..] + ":*"
  {
    ReplaceFirstSpec(arn, "stateMachine", "execution");
  }

  class StateMachine {
    const name: string
    const role: RoleRef
    const definition: Json
    const id: string
    const arn: string

    constructor(name: string, app: App, roleArn: Option<string>, region: string, chain: Chainable,
                registry: Registry, deployedId: string, deployedArn: string)
      modifies registry
      ensures this.name == name && this.role == ChooseRole(app, name, roleArn, region)
      ensures this.definition == chain.definition && id == deployedId && arn == deployedArn
      ensures registry.resources == old(registry.resources) + Declared(name, this.role, chain)
    {
      var role := ChooseRole(app, name, roleArn, region);
      this.name := name;
      this.role := role;
      this.definition := chain.definition;
      this.id := deployedId;
      this.arn := deployedArn;
      new;
      if role.CreatedRole? {
        registry.Declare([Role(role)]);
      }
      registry.Declare([StateMachineResource(name + "StateMachine", name, chain.definition, role)]);
      registry.Declare([EventsPolicy(name, role)]);
      registry.Declare(chain.permissions(role, name));
    }

    /** `states:*` on exactly the machine and its executions. */
    function Link(): (l: LinkInfo)
      ensures l.id == id && l.arn == arn
      ensures l.grants == [Permission(["states:*"], [arn, ExecutionsArn(arn)])]
    {
      LinkInfo(id, arn, [Permission(["states:*"], [arn, ExecutionsArn(arn)])])
    }
  }
}
