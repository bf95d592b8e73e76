/** The resource inspector the policy tools read the hub through
    (pkg/acm/interfaces.go), reduced to the two reads the core makes on
    ACM `Policy` objects. The cluster is a fixed snapshot. */
module Acm {
  import opened Wrappers
  import opened Json
  import opened Errors

  /** `policies` maps (name, namespace) to the object a `GetResource` of
      that policy returns; a missing pair is a failed get. `listing` is what
      the cluster-wide `ListResources` returns. */
  datatype Inspector = Inspector(policies: map<(string, string), Json>, listing: Result<seq<Json>, Error>)
  {
    function GetResource(name: string, namespace: string): Option<Json> {
      if (name, namespace) in policies then Some(policies[(name, namespace)]) else None
    }

    function ListResources(): Result<seq<Json>, Error> {
      listing
    }
  }
}
