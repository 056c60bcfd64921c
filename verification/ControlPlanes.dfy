/** The parts of an OpenCHAMIControlPlane's spec that the modelled code reads (api/v1alpha1). */
module ControlPlanes {
  import opened Options

  type Labels = map<string, string>

  /** A selector matches the labels that carry all its keys with its values. */
  predicate Matches(selector: Labels, labels: Labels) {
    forall k :: k in selector ==> k in labels && labels[k] == selector[k]
  }

  datatype Service = SMD | Tokensmith | BootService | MetadataService

  datatype ServiceSpec = ServiceSpec(enabled: bool, externalEndpoint: Option<string>)

  /** `enabled` is a pointer in the source: absent means enabled. */
  datatype PublicRoutes = PublicRoutes(enabled: Option<bool>, paths: seq<string>) {
    predicate IsEnabled() { enabled.None? || enabled.value }
  }

  datatype Kind = Provision | Bmc

  datatype ProbeTarget =
    ProbeTarget(subnet: string, validateHost: string, validatePort: int, validateTimeout: string)

  datatype NetworkProbe =
    NetworkProbe(enabled: bool, intervalSeconds: int, provision: Option<ProbeTarget>, bmc: Option<ProbeTarget>) {
    function Of(kind: Kind): Option<ProbeTarget> { if kind.Bmc? then bmc else provision }
  }

  datatype Spec = Spec(
    clusterName: string, domain: string,
    smd: ServiceSpec, tokensmith: ServiceSpec, bootService: ServiceSpec, metadataService: ServiceSpec,
    tokensmithTLS: bool,
    smdPublicRoutes: PublicRoutes, bootPublicRoutes: PublicRoutes, httpBootScript: Option<bool>,
    networkProbe: NetworkProbe,
    coreDHCPEnabled: bool, coreDHCPSelector: Labels, magellanSelector: Labels) {

    function Of(service: Service): ServiceSpec {
      match service
      case SMD => smd
      case Tokensmith => tokensmith
      case BootService => bootService
      case MetadataService => metadataService
    }

    /** Disabled services and services with an external endpoint are not run by the operator. */
    predicate Deploys(service: Service) {
      Of(service).enabled && Of(service).externalEndpoint.None?
    }
  }
}
