/** The API objects the operator and the agent read and write, reduced to the fields their
    logic looks at (api/v1alpha1). */
module Api {
  import opened Prelude

  /** PortRange.Validate. */
  predicate ValidRange(start: int32, end: int32) {
    0 < start <= end
  }

  /** TiProxyMachinePort: one frontend port to allocate. */
  datatype MachinePort = MachinePort(
    uid: string, namespace: string, name: string, requestedPort: Option<int32>, protocol: string)
  {
    function Key(): string { namespace + "/" + name }
  }

  /** TiDBResourcePoolLink: one backend cluster to reach through a frontend port. */
  datatype Link = Link(
    uid: string, namespace: string, name: string, clusterName: string, routeNamespace: string,
    frontendUser: string, pdAddresses: seq<string>, nsServerAddr: string, tlsSecret: Option<string>)
  {
    function Key(): string { namespace + "/" + name }
  }

  /** An entry of status.resolvedLinks. `hashed` is the text whose SHA-256 is its configHash. */
  datatype ResolvedLink = ResolvedLink(
    uid: string, name: string, namespace: string, routeNamespace: string, frontendUser: string,
    port: int32, clusterName: string, pdAddresses: seq<string>, nsServerAddr: string, tlsSecret: Option<string>,
    hashed: string)

  /** An entry of spec.exposure.loadBalancers. */
  datatype LoadBalancerSpec = LoadBalancerSpec(
    name: string, scope: string, loadBalancerName: string, subnetIDs: seq<string>)
}
