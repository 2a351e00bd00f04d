/** A client created on first use and kept in a module-level variable: the
    OpenSearch client, and the Apify and SQS clients of the queue handler, all
    follow `if (!client) { client = new Client(...) } return client`. A client is
    identified by a number; the number a new construction would produce (`newClient`) is a
    parameter. */
module Clients {
  import opened Common

  class ClientSlot {
    var instance: Option<nat>
    /** How many clients have been constructed through this slot. */
    var created: nat

    ghost predicate Valid()
      reads this
    {
      created <= 1 && (instance.None? <==> created == 0)
    }

    constructor()
      ensures Valid() && instance == None && created == 0
    {
      instance := None;
      created := 0;
    }

    /** Returns the stored client, constructing and storing `newClient` only when there
        is none yet; so at most one client is ever constructed. */
    method Get(newClient: nat) returns (client: nat)
      requires Valid()
      modifies this
      ensures Valid()
      ensures old(instance).Some? ==> client == old(instance).value && instance == old(instance) && created == old(created)
      ensures old(instance).None? ==> client == newClient && instance == Some(newClient) && created == 1
    {
      if instance.None? {
        instance := Some(newClient);
        created := created + 1;
      }
      client := instance.value;
    }
  }
}
