/** The cloud resources the workflow builder declares, reduced to records appended
    to a registry in declaration order. Creating a Pulumi resource is modelled as
    appending its record; nothing is ever removed. */
module Iam {
  import opened Common
  import opened AslJson

  const PolicyVersion := "2012-10-17"

  /** The role a state machine runs under: either looked up by ARN or created with
      a trust policy for one service principal. */
  datatype RoleRef =
    | ImportedRole(logicalName: string, arn: string)
    | CreatedRole(logicalName: string, roleName: string, trustedService: string)

  /** One policy statement. `resource` is None when the source's value is undefined. */
  datatype Statement = Statement(effect: string, actions: seq<string>, resource: Option<Json>)

  datatype Resource =
    | Role(role: RoleRef)
    | RolePolicy(logicalName: string, role: RoleRef, version: string, statements: seq<Statement>)
    | StateMachineResource(logicalName: string, machineName: string, definition: Json, role: RoleRef)

  /** The resources declared so far, in declaration order. */
  class Registry {
    var resources: seq<Resource>

    constructor()
      ensures resources == []
    {
      resources := [];
    }

    method Declare(rs: seq<Resource>)
      modifies this
      ensures resources == old(resources) + rs
    {
      resources := resources + rs;
    }
  }
}
