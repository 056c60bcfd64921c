# OpenCHAMI operator: verified model

A Dafny 4.11 model of the protocols inside the OpenCHAMI operator, with proofs of what they promise. The operator turns an
`OpenCHAMIControlPlane` into Kubernetes objects, Vault state and node labels. Most of that is object building; the modules
here cover the parts whose correctness depends on many steps, many parties or unbounded input. `dafny verify dfyconfig.toml`
checks the whole project.

| modules | subject |
|---|---|
| `Bits`, `Addresses` | IPv4/IPv6 attachment of a node to a subnet, down to mask arithmetic |
| `Quoting`, `Targets`, `Probe` | probe targets, their revision as a cached verdict, the environment round trip, one tick of a probe |
| `Placement`, `Protocol` | the operator's side of probing, server-side apply of the CoreDHCP node selector, and every interleaving of the two |
| `SharedProvider` | the Vault OIDC provider that all control planes share, written without compare-and-swap |
| `PublicPaths`, `Routing` | gateway routes and policies under Gateway API precedence |
| `GatewayPass`, `GatewayLive` | runs of gateway passes with failures, and what the live objects they leave behind answer |
| `KeyValue`, `Seeding`, `AppRole`, `Deletion` | Vault KV deletion, seeded credentials, the AppRole SecretID, the finalizer |
| `Phases`, `Admission`, `Names` | the phase machine, the admission webhook over runs, isolation of names derived from a cluster name |
| `LogsSql` | the DuckDB scripts of the log commands against a SQL lexer |
| `NetworkPolicies` | the policies as the set of flows they permit |

## Assumptions

- Parsing and printing of prefixes, URLs and durations, and SHA-256, enter as a record of functions with laws
  (`Targets.Library`, `Targets.Faithful`). Truncated SHA-256 is taken to be collision free where a lemma requires `CollisionFree`.
- A node label patch is atomic and leaves other keys alone. Probes are the only writers of their cluster's revision labels.
- A forced server-side apply sets the applied keys, takes them from a manager that held another value, and drops a manager's
  earlier keys only when no other manager owns them; `nodeSelector` is merged per key.
- Admission is serial and sees an up-to-date list. The API server gives every object a unique UID.
- Nothing but the operator writes the shared OIDC provider. RoleIDs and SecretIDs are random and never repeat.
- `spec.domain` is a plain host name, so a route attaches to the listeners exactly when it carries the same one; wildcard host
  names are not modelled.
- Every live control plane has its own cluster name.
- KV paths do not end in a slash.
- The SQL lexer refuses comment openers, quoted identifiers, dollar quotes and prefixed literals instead of reading them, so a
  script that lexes contains none of these. `fmt.Sprintf` with one argument is modelled for `%s`, `%[1]s`, `%%` and the error
  marker of any other plain verb; directives with flags, widths, precisions or other indexes are outside the model.
- What an outside address in a NetworkPolicy covers is left open: the flow theorems hold for every choice.

Results that differ from what the source says about itself:

- `SharedProvider`: an existing issuer can also be changed by a call whose first read saw a provider, after a creation race
  (`ReaderCanChangeIssuer`). `FixedIffStable` gives the exact condition under which it is fixed for good.
- `Admission`: the discriminator rule is described as preventing two clusters from targeting the same nodes. It does not
  (`AdmittedSelectorsMayOverlap`); `OverlapIff` says exactly which selectors can meet on a node.
- `Admission`: an object that was admitted can be refused when submitted again unchanged, because a control plane with probing on
  may take its selector unchecked; `NoOpUpdateIff` is the exact condition.
- `GatewayPass`: a pass that stops between a JWT route and its policy leaves the route without one
  (`InterruptedPassUnpaired`); `UnpairedIff` is the exact condition on the pass's inputs, `CompletedPairs` and `PairingLasts`
  say how it is repaired and that it then lasts. `GatewayLive.LiveWithoutJWT` counts such leftovers in.
- `GatewayLive`: when the domain is edited while managed tokensmith is not ready, the public metadata route moves to the new
  domain and the admin route stays on the old one, so the admin subtree is open on the new domain (`StrandedAdmin`,
  `StrandedAdminRun`). `AdminOpenIff` is the exact condition on a pass.
- `AppRole`: a bound SecretID stays valid only as long as nobody destroys it inside Vault, which the operator does not notice
  (`DestroyedIsNotNoticed`); `UndisturbedPassRepairsIff` is the exact condition.
- `LogsSql`: an export path or format with a `%` is rewritten by `fmt.Sprintf`; `ExportIff` is the exact condition for every
  body that begins with anything but a `%`, and `IndexReproducesItself` shows why the body's first character matters.
- `Deletion`: buckets are per cluster only under their default names. `BucketSurvivesIff` is the exact condition for a bucket to
  survive the deletion of a control plane, `BuildKeepsCleanIff` for a deleted one not to be made again by another.
- `SharedProvider`: for a base issuer that ends in a slash, or is empty, the in-memory client and the real one differ;
  `EnsureRefinesFake` says exactly where.
- `KeyValue`: for a prefix without a final slash the in-memory client removes more than the real one; `FlatFilterAgrees` is the
  exact condition.

## Model

| member | source | states |
|---|---|---|
| `Addresses.MaskTestIsRange` | internal/networkprobe/attachment.go:42-53 | for every prefix length including 0, the host-bit test on an IPv4 address is membership in the block without its lowest and highest address, or in the whole block from /31 up |
| `Addresses.AddressAttachesIffInside` | internal/networkprobe/attachment.go:26-40 | an address counts for a prefix exactly when it is a usable global unicast address inside it |
| `Addresses.AttachedIff` | internal/networkprobe/attachment.go:26-53 | a node is attached exactly when some interface that is up and not loopback holds such an address |
| `Addresses.Classes` | internal/networkprobe/attachment.go:26-40 | loopback, multicast, link-local and mapped addresses as ranges of numbers, for both families |
| `Addresses.GlobalUnicastIff` | internal/networkprobe/attachment.go:26-40 | global unicast is everything outside those ranges but the unspecified addresses and broadcast |
| `Addresses.MaskedIff` | internal/networkprobe/target.go:30-40 | masked prefixes are equal if and only if the prefixes are equally long and one contains the other's address |
| `Addresses.InsideMasked` | internal/networkprobe/target.go:30-40 | masking a prefix changes nothing about which addresses are inside |
| `Addresses.FirstUsableIPv4` | internal/reconcilers/coredhcp_config.go:97-110 | null exactly for other than IPv4 networks and for blocks from /31 up; otherwise a fresh copy of the four address bytes with the last one incremented, wrapping at 256 |
| `Addresses.To4Iff` | internal/reconcilers/coredhcp_config.go:97-110 | the IPv4 form is four bytes, on their own or behind the IPv4-mapped prefix |
| `Addresses.GatewayIsFirstHost` | internal/reconcilers/coredhcp_config.go:97-110 | for a masked block the incremented address is the network address plus one, so no carry is lost, lies in the subnet, and passes the usability test the probe applies |
| `Targets.PreimageExact` | internal/networkprobe/target.go:64-76 | the revision preimages of a target and a valid target are equal if and only if version, masked prefix, host, port and effective timeout are |
| `Targets.RevisionExact` | internal/networkprobe/target.go:64-76 | so are the revisions themselves, SHA-256 being collision free |
| `Targets.PassesIffMeets` | cmd/probe/main.go:158-176 | a configured target is valid and its check passes if and only if, in the target's own fields, it is usable, an up interface holds an address inside the subnet, and a named validation host answers on its port in time, bracketed where it is an IPv6 literal |
| `Targets.ValidIffUsable` | internal/networkprobe/target.go:30-61 | validity in the fields of the target: a network of hosts, host and port together, a port up to 65535, a positive timeout |
| `Targets.RevisionInFields` | internal/networkprobe/target.go:64-76 | two targets share a revision if and only if both are usable and agree on block, host, port and effective timeout under one version |
| `Targets.RevisionDeterminesVerdict` | cmd/probe/main.go:158-176 | targets with equal revisions are met by the same hosts |
| `Targets.EnvRoundTrip` | internal/reconcilers/networkprobe.go:230-247 | printing a target to the environment and parsing it in the probe returns its check and revision if it is valid, an unusable target if not, none without a subnet |
| `Targets.NoTargetNoCheck` | internal/reconcilers/networkprobe.go:230-247 | a target that is not configured does not reach the probe |
| `Targets.EnvVerdictIff` | cmd/probe/main.go:190-222 | for any environment whatever, the probe is satisfied if and only if the injected revision is the one it computes, a given port is a non-zero number, and the host meets the target |
| `Targets.UsableTarget` | cmd/probe/main.go:195-222 | a target the probe can pass comes from a valid configuration and carries exactly its revision |
| `Targets.OtherVersionUnusable` | cmd/probe/main.go:259-269 | a probe of another algorithm version can never attest a target injected by this operator |
| `Quoting.QuoteSelfDelimiting` | internal/networkprobe/target.go:64-76 | the quoted fields of the revision preimage can be taken apart again, whatever the strings contain |
| `Quoting.ControlEscapes` | internal/networkprobe/target.go:64-76 | how unprintable control characters are written |
| `Probe.RunnerFromEnv` | cmd/probe/main.go:227-287 | the runner exists exactly when names, interval and at least one target are given, and holds each target after the comparison with the injected revision |
| `Probe.IntervalIff` | cmd/probe/main.go:236-247 | which intervals are accepted, in seconds |
| `Probe.RunOnce` | cmd/probe/main.go:126-152 | a tick applies the whole label patch in one step or nothing, and succeeds exactly when there is nothing to write or the patch is accepted |
| `Probe.PatchEffect` | cmd/probe/main.go:305-319 | a patch touches only the cluster's own labels; ready and revision are written together, and the revision is cleared exactly when the check fails |
| `Placement.EligibleIffMatched` | internal/reconcilers/helpers.go:55-99 | with probing on, the status tally and the node selector pick the same nodes |
| `Placement.ProbingSelector` | internal/reconcilers/helpers.go:55-83 | with probing on, a node matches if and only if it carries ready and the revision of the current target |
| `Placement.PlainSelectors` | internal/reconcilers/helpers.go:55-83 | with probing off, CoreDHCP and Magellan each have the selector the spec gives for them |
| `Placement.GateReadyIff` | internal/reconcilers/helpers.go:92-99 | with probing on, the gate is open if and only if the condition is True for this generation, the interval is not negative and the target of that kind is usable |
| `Placement.ProbeReadyIff` | internal/reconcilers/networkprobe.go:150-155 | a report is ready if and only if each configured target has a node, one is configured and the interval is not negative |
| `Placement.Tally` | internal/reconcilers/networkprobe.go:123-160 | the reported names are sorted, distinct and exactly the eligible nodes |
| `Placement.ReconcileNetworkProbe` | internal/reconcilers/networkprobe.go:75-196 | errors leave the status alone; otherwise the condition carries the current generation, lists come from the tally, and it is ready exactly when every configured target has a node |
| `Placement.ReadyReportIsSelection` | internal/reconcilers/networkprobe.go:123-195 | a ready report with a provision target names at least one node and exactly those the effective selector matches |
| `Placement.ApplyCovers` | internal/reconcilers/coredhcp.go:210-230 | after an apply by either field manager the live selector matches at most the nodes the applied one matches |
| `Placement.GateKeepsMain` | internal/reconcilers/coredhcp.go:210-230 | the early restriction takes a key from the main manager if and only if it sets that key to another value; every other key keeps its owner and value |
| `Placement.ApplyTakes` | internal/reconcilers/coredhcp.go:210-230 | who owns each key after an apply by either manager |
| `Placement.CompletePassExact` | internal/reconcilers/coredhcp.go:98-170 | a complete pass leaves exactly the effective selector, plus keys foreign managers own |
| `Placement.RestrictExistingSelection` | internal/reconcilers/coredhcp.go:210-230 | a missing DaemonSet is fine; a live one demands at least the selector afterwards, or nothing changed and an error is reported |
| `Placement.ReconcileCoreDHCP` | internal/reconcilers/coredhcp.go:90-205 | the outcome and the DaemonSet left behind for every combination of gates and failures; unless the pass fails or is disabled the live selector covers the effective one, also when a gate returns early; past all gates there is a DaemonSet |
| `Placement.FailedOutcomeIff` | internal/reconcilers/coredhcp.go:90-205 | exactly when a pass reports an error, or that CoreDHCP is disabled |
| `Placement.WaitingOutcomeIff` | internal/reconcilers/coredhcp.go:108-135 | exactly when it waits for eligible nodes or for its config source |
| `Placement.ReadyOutcomeIff` | internal/reconcilers/coredhcp.go:172-205 | exactly when it reports Ready, in the fields of the rollout |
| `Protocol.RunKeepsInv` | internal/controller/openchamicontrolplane_controller.go:122-135 | every interleaving of ticks of current, stale, other-version and legacy probes, spec edits, node changes and operator steps keeps labels attested, selectors covering and passes sound; passes that fail still write their status |
| `Protocol.LabelVouches` | internal/reconcilers/helpers.go:55-66 | a node carrying the current revision passed the current target, evaluated directly, at its latest revision-writing tick |
| `Protocol.PlacementSafe` | internal/reconcilers/coredhcp.go:98-116 | in every reachable state each node matched by the live CoreDHCP selector has as its latest revision-writing patch a passing check of the target of the spec the selector was last restricted for |
| `Protocol.PlacedNodesMeetTarget` | internal/reconcilers/coredhcp.go:98-116 | the same in fields: the host of that check had an address inside the target's subnet on an interface that was up, and the validation host answered |
| `Protocol.PlacementFollowsSpec` | internal/reconcilers/coredhcp.go:98-116 | once a pass on the current spec has restricted CoreDHCP without error, every matched node was checked, at its latest revision-writing patch, on a host that meets the current target, through every later interleaving until the spec or the DaemonSet is changed from outside |
| `Protocol.TickWrites` | cmd/probe/main.go:126-152 | a tick of a probe configured by an operator of its version writes ready and the revision if and only if the host meets the target, and otherwise not ready and no revision |
| `Protocol.TickMatchesIff` | internal/reconcilers/helpers.go:55-83 | after such a tick the CoreDHCP selector matches the node if and only if its host meets the target |
| `Protocol.GateOpensOnVouchedNodes` | internal/reconcilers/helpers.go:92-99 | the DHCP gate opens only on a report of the same generation that lists at least one node, each checked on a host that meets the provision target |
| `Protocol.PassRestricts` | internal/reconcilers/coredhcp.go:98-116 | the restriction step of a pass on the current spec establishes the restriction, whatever later gates decide |
| `Protocol.RestrictionLasts` | internal/reconcilers/coredhcp.go:210-230 | it then lasts through every run until the spec or the DaemonSet is changed from outside |
| `Protocol.OnlyAttestationRestores` | cmd/probe/main.go:126-152 | a node that does not carry the revision stays unmatched through every run without an attesting tick; writing only ready=true never restores it |
| `Protocol.ProbePassIsAStep` | internal/reconcilers/networkprobe.go:75-196 | the network-probe reconciler over a snapshot of the nodes has the condition and the node names of the probe step |
| `Protocol.DhcpPassIsItsSteps` | internal/reconcilers/coredhcp.go:90-205 | undisturbed, the restrict and deploy steps leave the DaemonSet the CoreDHCP reconciler leaves, for every combination of failures |
| `SharedProvider.IssuersAgree` | internal/reconcilers/helpers.go:301-323 | the issuer the client expects, the one Vault reports and the URL TokenSmith validates are the same for every spec |
| `SharedProvider.IssuerIsNamed` | internal/reconcilers/helpers.go:301-323 | that issuer is scheme and host of the configured issuer, or of the address where none is configured, and the provider's path; what is no such URL is taken without slashes at its end |
| `SharedProvider.NamedIssuerIsShared` | internal/reconcilers/helpers.go:301-323 | control planes with one configured issuer ask for one issuer, whatever their addresses |
| `SharedProvider.Provider.Ensure` | internal/vault/client_vault.go:382-437 | result and provider after one call, for every read, write and read-back outcome; a foreign issuer is never written over |
| `SharedProvider.EnsureRefinesFake` | internal/vault/fake/client.go:195-220 | for every base issuer exactly when an undisturbed call does to reported issuers what the in-memory client does to base issuers, and exactly when both report success |
| `SharedProvider.EnsureIsItsSteps` | internal/vault/client_vault.go:382-437 | undisturbed, the read, write and read-back steps of a call have the method's result and leave its provider |
| `SharedProvider.SuccessWasObserved` | internal/vault/client_vault.go:405-423 | in any interleaving success comes only from a read-back that saw the caller's own issuer |
| `SharedProvider.FixedIffStable` | internal/vault/client_vault.go:382-437 | an existing issuer is fixed in every continuation if and only if no call past its check, and no write still on its way after its caller gave up, asks for another |
| `SharedProvider.StableForever` | internal/vault/client_vault.go:382-437 | once fixed it stays fixed through every run, late writes included |
| `SharedProvider.LateDisagreementRejected` | internal/vault/client_vault.go:382-404 | a later call that disagrees never writes: it ends in a conflict or a failed read |
| `SharedProvider.LosersNeverSucceed` | internal/vault/client_vault.go:405-423 | no call whose issuer lost the race can still report success |
| `SharedProvider.ChangesStartBlind` | internal/vault/client_vault.go:370-381 | unless a write by a call that saw no provider takes effect, at once or late, over an existing one, an issuer once set never changes |
| `SharedProvider.ReaderCanChangeIssuer` | internal/vault/client_vault.go:370-381 | a concrete run in which a call that read and agreed with an issuer changes the current one |
| `SharedProvider.AgreementNeverConflicts` | internal/vault/client_vault.go:382-437 | control planes that agree never see a conflict, however their calls interleave |
| `PublicPaths.ResolvePublicPaths` | internal/reconcilers/gateway.go:175-200 | the loop with its `seen` map and final sort computes the specified list: nothing when disabled, else the kept paths, distinct and sorted |
| `PublicPaths.ResolveMembers` | internal/reconcilers/gateway.go:175-200 | which paths survive: exactly the configured ones (or defaults) under the prefix |
| `PublicPaths.ResolveDependsOnSet` | internal/reconcilers/gateway.go:175-200 | the result depends only on the set of configured paths, not on order or repetition |
| `PublicPaths.PublicPathsUnderPrefix` | internal/reconcilers/gateway.go:204-234 | every public path of a service lies strictly under its prefix |
| `PublicPaths.PublicPathsIff` | internal/reconcilers/gateway.go:175-210 | the public paths of each service in the fields of the spec |
| `PublicPaths.ScriptPublishedIff` | internal/reconcilers/gateway.go:225-234 | the boot script is published in plain text if and only if the boot service runs here, its public route is on and names the script, and plain text is not switched off |
| `PublicPaths.DefaultPaths` | internal/reconcilers/gateway.go:137-166 | what is public by default |
| `Routing.NoTies` | internal/reconcilers/gateway.go:765-938 | two matches of one request that neither outranks are the same match |
| `Routing.OffersIff` | internal/reconcilers/gateway.go:448-493 | objects with a given route table offer exactly the listed matches on each listener of the table's host name, each through one route |
| `Routing.AtMostOneWinner` | internal/reconcilers/gateway.go:448-493 | for every route table each request has at most one winning match, without the Gateway API's tie-breakers |
| `Routing.AnsweredWithoutJWTIff` | internal/reconcilers/gateway.go:857-1050 | for every route table and set of policies, which requests for which host over HTTPS a route without a policy wins |
| `Routing.RedirectedUnlessScript` | internal/reconcilers/gateway.go:734-763 | for every route table, on plain HTTP exactly the GET of a published boot script is forwarded, to the boot service, and everything else is redirected to HTTPS |
| `Routing.ForwardedToOwner` | internal/reconcilers/gateway.go:765-1050 | for every route table, which requests over HTTPS are answered at all, and that each is forwarded to the service that owns its path, with the prefix cut off exactly on the admin routes |
| `Routing.OtherHostsUnanswered` | internal/reconcilers/gateway.go:669-732 | nothing answers for any other host name |
| `Routing.RenderedShows` | internal/reconcilers/gateway.go:448-493 | one pass listens at the spec's domain only, and the routes it renders there are exactly those of the spec's table |
| `Routing.SecuredIff` | internal/reconcilers/gateway.go:553-584 | the routes guarded by a SecurityPolicy in a pass are exactly the four JWT routes of deployed services, once the gate is open |
| `Routing.HttpsWithoutJWT` | internal/reconcilers/gateway.go:857-1050 | among the objects of one pass, a request over HTTPS is answered without a JWT exactly when it is a GET on a resolved public path, a tokensmith path, or a metadata path outside the rendered admin subtree |
| `Routing.HttpRedirects` | internal/reconcilers/gateway.go:734-763 | the objects of one pass forward on plain HTTP exactly the enabled GET of the boot script, to the boot service, and redirect everything else to HTTPS |
| `Routing.HttpsForwards` | internal/reconcilers/gateway.go:765-1050 | and over HTTPS forward each request they answer to the service that owns its path |
| `Routing.LimitsAndTrust` | internal/reconcilers/gateway.go:553-584 | a pass rate limits SMD's route and no other, and trusts tokensmith's TLS exactly when it is managed, uses TLS and the CRD is there |
| `GatewayPass.Cluster.ApplyInOrder` | internal/reconcilers/gateway.go:330-339 | applies in order and stops at the first refusal |
| `GatewayPass.Cluster.DeleteStalePublicRoutes` | internal/reconcilers/gateway.go:518-534 | removes exactly the stale public routes, or a prefix of them when a delete fails; absent ones are no error |
| `GatewayPass.Cluster.Reconcile` | internal/reconcilers/gateway.go:281-424 | what a pass reports and the exact live objects it leaves, for every gate and failure |
| `GatewayPass.OnlyCompletePassesDelete` | internal/reconcilers/gateway.go:330-345 | a pass deletes only public routes, and only when all its objects went through |
| `GatewayPass.FailedDeleteStops` | internal/reconcilers/gateway.go:518-534 | stale routes are deleted in a fixed order, and a failing delete leaves the rest |
| `GatewayPass.RenderedOrStale` | internal/reconcilers/gateway.go:462-516 | each public route name is either rendered or stale, never both and never neither |
| `GatewayPass.PublicRoutesConverge` | internal/reconcilers/gateway.go:462-534 | from any live state a pass that gets through leaves exactly the public routes the spec asks for, with its content |
| `GatewayPass.ClosedGateStep` | internal/reconcilers/gateway.go:314-339 | while managed tokensmith is not ready, or its TLS cannot be trusted, a pass leaves every JWT route, policy and rate limit as it was, wherever it stops |
| `GatewayPass.ClosedGateRun` | internal/reconcilers/gateway.go:626-633 | the same over every run through which the gate stays closed |
| `GatewayPass.JWTRoutesIff` | internal/reconcilers/gateway.go:314-329 | a pass sets out to apply a JWT route and its policy exactly when the service is deployed, managed tokensmith is ready and its TLS can be trusted |
| `GatewayPass.HalvesApart` | internal/reconcilers/gateway.go:462-493 | the objects applied at once hold nothing gated, the others nothing else |
| `GatewayPass.GatedTogether` | internal/reconcilers/gateway.go:553-584 | each gated route comes with its own policy, and no policy targets a route that is always applied |
| `GatewayPass.TrustComesFirst` | internal/reconcilers/gateway.go:553-561 | a BackendTLSPolicy precedes everything gated |
| `GatewayPass.UnpairedIff` | internal/reconcilers/gateway.go:330-339 | from any live state, a pass leaves a JWT route live without its policy if and only if the policy was not live, the route was or its place in the list is reached, and the policy's place is not reached |
| `GatewayPass.BreaksPairingIff` | internal/reconcilers/gateway.go:330-339 | a pass breaks a pairing that held if and only if certificates are valid, the service is deployed, tokensmith is ready, the policy is not live yet, and the refused apply stands behind the route's place in the list and no later than its policy's |
| `GatewayPass.InterruptedPassUnpaired` | internal/reconcilers/gateway.go:330-339 | a concrete spec and interrupted pass that leave the SMD route without its policy |
| `GatewayPass.PassPositions` | internal/reconcilers/gateway.go:553-584 | where each JWT route and its policy stand in the objects of a pass |
| `GatewayPass.CompletedPairs` | internal/reconcilers/gateway.go:553-584 | a pass that gets through pairs every JWT route it renders, whatever was left before |
| `GatewayPass.PairingLasts` | internal/reconcilers/gateway.go:502-534 | once live, a policy is never lost again in any run |
| `GatewayLive.RunCanonical` | internal/reconcilers/gateway.go:281-424 | in every run each live object stands under its own key, and apart from the public routes is what any spec renders there, up to the domain it was rendered for |
| `GatewayLive.FixedRouteLiveIff` | internal/reconcilers/gateway.go:502-534 | after a pass that gets through, a route other than the public ones is live if and only if it was before or is rendered now, and on the spec's domain if and only if it already was or is rendered now |
| `GatewayLive.LiveWithoutJWT` | internal/reconcilers/gateway.go:281-424 | in every run, domain edits included, after every pass that gets through, the live objects answer over HTTPS without a JWT exactly these requests for the spec's domain: GETs on its public paths, tokensmith and metadata paths of routes on that domain outside an admin route on it, and what lies under a JWT route on it left without its policy |
| `GatewayLive.AdminOpenIff` | internal/reconcilers/gateway.go:281-424 | exactly when a pass that gets through leaves the admin subtree of metadata open, in terms of the pass's inputs and the live objects before it |
| `GatewayLive.StrandedAdmin` | internal/reconcilers/gateway.go:314-339 | in any run, after a domain edit between a pass with tokensmith ready and one without, the admin subtree is open on the new domain although its route and policy are live |
| `GatewayLive.StrandedAdminRun` | internal/reconcilers/gateway.go:314-339 | such a run from an empty namespace, with passes that both get through |
| `GatewayLive.LiveRedirects` | internal/reconcilers/gateway.go:734-763 | on plain HTTP they forward exactly the enabled GET of the boot script, to the boot service, and redirect every other request for the spec's domain to HTTPS |
| `GatewayLive.LiveForwards` | internal/reconcilers/gateway.go:765-1050 | over HTTPS they forward each request they answer to the service that owns its path |
| `GatewayLive.LiveOtherHosts` | internal/reconcilers/gateway.go:669-732 | nothing answers for a domain left behind |
| `GatewayLive.LiveAtMostOneWinner` | internal/reconcilers/gateway.go:448-493 | and no request needs a tie-breaker |
| `KeyValue.SplitKVPath` | internal/vault/client_vault.go:490-496 | mount and rest of a path, and how they join back |
| `KeyValue.KV.EnsureSecret` | internal/vault/client_vault.go:155-173 | an existing secret changes only when overwriting is asked for |
| `KeyValue.KV.DeleteClusterPaths` | internal/vault/client_vault.go:439-465 | on success exactly what the flat prefix filter removes is gone, on failure nothing outside the subtree; without failing calls it succeeds |
| `KeyValue.KV.DeleteTree` | internal/vault/client_vault.go:439-465 | the recursion behind it terminates, since no level is longer than the longest stored path |
| `KeyValue.FlatFilterAgrees` | internal/vault/fake/client.go:246-259 | without a final slash the real and the in-memory deletion agree if and only if every stored path under the prefix continues with a slash |
| `Seeding.EnsureClusterSecrets` | internal/reconcilers/vault.go:290-345 | seeds go only where nothing is stored, wherever the loop stops |
| `Seeding.SeedsAre` | internal/vault/paths.go:59-75 | which paths are seeded |
| `Seeding.WriteSecrets` | internal/reconcilers/vault.go:123-233 | a whole pass overwrites nothing but the two OIDC paths |
| `Seeding.SeedsNeverOverwritten` | internal/reconcilers/vault.go:290-345 | a stored database or bucket credential keeps its value through every run of passes and deletions of any cluster until its own subtree is deleted |
| `AppRole.Cluster.GenerateSecretID` | internal/vault/client_vault.go:217-228 | a SecretID belongs to the role that holds the name when it is minted |
| `AppRole.Cluster.EnsureSecretID` | internal/reconcilers/vault.go:403-467 | a SecretID is minted exactly when the stored one is absent, empty or bound to another RoleID; otherwise nothing changes |
| `AppRole.BoundAuthenticates` | internal/reconcilers/vault.go:403-467 | in every reachable state a Secret bound to the current RoleID authenticates if and only if its SecretID was not destroyed in Vault |
| `AppRole.BoundIsKept` | internal/reconcilers/vault.go:403-467 | a bound SecretID is never rotated except by an administrator's deletion or clearing |
| `AppRole.ApplyExact` | internal/reconcilers/vault.go:132-161 | what a pass writes counts as bound exactly when the RoleID it read is still current, and then authenticates unless destroyed meanwhile |
| `AppRole.UndisturbedPassRepairsIff` | internal/reconcilers/vault.go:132-161 | from every reachable state the next undisturbed pass ends bound; it ends authenticating if and only if it did not start bound to a destroyed SecretID, and changes nothing if it started bound |
| `AppRole.EnsureIsItsSteps` | internal/reconcilers/vault.go:403-467 | undisturbed, the method is a run of the steps, whatever fails on the way |
| `AppRole.DestroyedIsNotNoticed` | internal/reconcilers/vault.go:403-467 | a run from an untouched cluster in which a pass binds a SecretID, it is destroyed in Vault, and the next whole pass leaves everything as it is |
| `Deletion.World.DeleteBucket` | internal/s3/s3client.go:149-161 | removes the bucket, or fails having removed only objects of that bucket |
| `Deletion.World.ReconcileDelete` | internal/controller/openchamicontrolplane_controller.go:278-330 | every way a pass can stop, and success without failing calls |
| `Deletion.FinalizerLast` | internal/controller/openchamicontrolplane_controller.go:278-330 | the finalizer is gone only after a pass at whose end namespace and RBAC are gone, the KV subtree if annotation and client for Vault are there, and the named or default buckets if those for object storage are |
| `Deletion.BindingBeforeRole` | internal/controller/openchamicontrolplane_controller.go:309-321 | no pass deletes the cluster role while its binding is left |
| `Deletion.OptInOnly` | internal/controller/openchamicontrolplane_controller.go:291-307 | Vault changes only with Vault's annotation and client, object storage only with its own |
| `Deletion.DeletionOrder` | internal/controller/openchamicontrolplane_controller.go:286-321 | nothing goes before the namespace, no bucket before the Vault subtree owed, no RBAC before the buckets owed |
| `Deletion.OthersUntouched` | internal/controller/openchamicontrolplane_controller.go:278-330 | a pass leaves namespace, RBAC, KV subtree and finalizer of every other cluster as they were |
| `Deletion.OthersUntouchedByRun` | internal/controller/openchamicontrolplane_controller.go:278-330 | the same over every run of deletions and ordinary passes around it |
| `Deletion.SecretsUnderPrefix` | internal/reconcilers/vault.go:176-229 | the secrets a Vault pass writes lie under its own cluster's KV prefix |
| `Deletion.MadeBucketsNamed` | internal/reconcilers/logbucket.go:43-97 | which buckets an ordinary pass makes |
| `Deletion.BuildKeepsCleanIff` | internal/reconcilers/bucket.go:71-82 | what a deletion cleaned up stays so through ordinary passes of another control plane if and only if that one makes no bucket the deletion owed |
| `Deletion.DeletedForGood` | internal/controller/openchamicontrolplane_controller.go:97-330 | over runs of deletions and ordinary passes with any failures, retries, edits and re-creations, a finalizer that is gone was last taken by a deletion pass of its own control plane; everything that pass owed was gone then and stays gone as long as no other control plane's pass makes a bucket it owed |
| `Deletion.BucketSurvivesIff` | internal/reconcilers/helpers.go:580-593 | any bucket survives every pass of a deletion if and only if that deletion did not opt into object storage, has no client for it, or does not name the bucket |
| `Deletion.DefaultBucketsApart` | internal/reconcilers/helpers.go:580-593 | default bucket names of different clusters never coincide |
| `Phases.ControlPlane.AggregateServicesReady` | internal/controller/openchamicontrolplane_controller.go:243-276 | the condition set is True exactly when every enabled service is ready, in whatever order the map is visited |
| `Phases.AllReadyIff` | internal/status/reporter.go:222-230 | every enabled service has to report ready, and one that has not reported is not ready |
| `Phases.ControlPlane.ComputeAndSetPhase` | internal/status/reporter.go:99-175 | one walk over the conditions computes the phase the ladder demands |
| `Phases.ControlPlane.FinishPass` | internal/controller/openchamicontrolplane_controller.go:220-231 | aggregation first, then the phase |
| `Phases.ReadyIff` | internal/status/reporter.go:99-175 | from any phase the result is Ready exactly when no condition is False and every enabled service is ready |
| `Phases.FailedIff` | internal/status/reporter.go:158-172 | Failed needs a False condition whose reason mentions an error, or outlives one exactly while an outage remains that no other rung reports |
| `Phases.DegradedIff` | internal/status/reporter.go:158-172 | Degraded always has a reason of its own, spelled out by kind and reason of the conditions, and is never merely carried over |
| `Phases.ProvisioningIff` | internal/status/reporter.go:158-172 | exactly when Provisioning is reported |
| `Phases.OnePassSettlesIff` | internal/status/reporter.go:99-220 | with unchanging inputs a second pass changes the phase exactly when a service regressed from Ready and nothing else shows it |
| `Phases.TwoPassesSettle` | internal/status/reporter.go:99-175 | two passes always reach a fixed point |
| `Phases.ServicesReadyAgrees` | internal/controller/openchamicontrolplane_controller.go:243-276 | ServicesReady says exactly that enabled services are ready, and the phase is Ready exactly when it is True and nothing else is False |
| `Phases.OutageStaysDegraded` | internal/status/reporter.go:141-160 | over every run from Ready with an outage in each pass the phase is Degraded after the first finished pass, cut passes included |
| `Admission.ListOtherClusters` | api/v1alpha1/openchamicontrolplane_webhook.go:480-502 | every listed object but the one under validation |
| `Admission.Validate` | api/v1alpha1/openchamicontrolplane_webhook.go:360-421 | admitted exactly when the list call and the per-object checks succeed, the name is free, and a selector without probing is present, discriminating and unused |
| `Admission.ValidateUpdate` | api/v1alpha1/openchamicontrolplane_webhook.go:220-256 | the same, and the cluster name is unchanged |
| `Admission.RunKeepsInv` | api/v1alpha1/openchamicontrolplane_webhook.go:360-421 | every run of creates, updates and deletes keeps names pairwise distinct and selectors of control planes without probing pairwise different; each of those names its cluster in a key or value, and CoreDHCP with probing has a provision target |
| `Admission.DiscriminatorIff` | api/v1alpha1/openchamicontrolplane_webhook.go:505-525 | a selector discriminates if and only if the cluster's name occurs somewhere in one of its keys or values |
| `Admission.NoOpUpdateIff` | api/v1alpha1/openchamicontrolplane_webhook.go:360-421 | a stored object submitted unchanged is admitted if and only if it has probing on or no other has its selector |
| `Admission.NamesImmutable` | api/v1alpha1/openchamicontrolplane_webhook.go:220-231 | an object keeps its cluster name as long as it exists |
| `Admission.ControlPlanesIsolated` | internal/vault/paths.go:59-75 | control planes that exist side by side share no namespace, cluster role, Vault role, OIDC client, KV subtree or node label |
| `Admission.OverlapIff` | api/v1alpha1/openchamicontrolplane_webhook.go:505-525 | two selectors can match one node if and only if they agree on shared keys |
| `Admission.AdmittedSelectorsMayOverlap` | api/v1alpha1/openchamicontrolplane_webhook.go:505-525 | two admitted selectors that match one node |
| `Names.LabelsInjective` | internal/networkprobe/target.go:79-86 | a label key determines its family, its kind and its cluster |
| `Names.ReadyLabels` | internal/networkprobe/target.go:79-81 | the ready label of each kind |
| `Names.RevisionLabels` | internal/networkprobe/target.go:84-86 | the revision label of each kind |
| `Names.LabelsDisjoint` | internal/networkprobe/target.go:79-86 | different clusters share no label key |
| `Names.KVSubtreesDisjoint` | internal/vault/paths.go:59-75 | no path lies under the prefixes of two clusters, hyphens and common beginnings included |
| `Names.ObjectNamesDistinct` | internal/reconcilers/helpers.go:115-117 | namespaces, probe roles and Vault roles of different clusters differ |
| `Names.OIDCClientsDisjoint` | internal/vault/client_vault.go:245-345 | so do their OIDC clients |
| `LogsSql.BuildSQL` | internal/admin/logs.go:267-292 | the buffer grows to the specified query text |
| `LogsSql.ParseEndpoint` | internal/admin/logs.go:314-326 | only an empty endpoint is refused |
| `LogsSql.EndpointIff` | internal/admin/logs.go:314-326 | an endpoint is parsed to a host with TLS if and only if it is https and that host, without if it is http and that host or the bare host |
| `LogsSql.AssembleSQL` | internal/admin/logs.go:232-249 | user SQL or structured query, trimmed, wrapped and put behind the prelude; an error exactly for an empty endpoint |
| `LogsSql.LexedEscaped` | internal/admin/logs.go:330-332 | inside a literal, escaped text reads back as the text, for every string |
| `LogsSql.PreludeLexes` | internal/admin/logs.go:296-310 | after the prelude the lexer is between statements and has read exactly seven, whatever endpoint and credentials contain and whatever SQL follows |
| `LogsSql.StructuredScript` | internal/admin/logs.go:232-310 | for all strings the script lexes to the same eight statements with the inputs as literals, the endpoint's host among them and TLS on exactly for https |
| `LogsSql.FinalSemicolons` | internal/admin/logs.go:232-249 | user SQL gives the same script with and without a final semicolon, and with white space around it |
| `LogsSql.StatementsWhole` | internal/admin/logs.go:232-310 | none of these statements, nor the COPY of an export, contains a semicolon token |
| `LogsSql.ExportIff` | internal/admin/logs.go:254-262 | the export template comes out as written for every body if path and format hold no `%`, and, among templates the model of Sprintf covers, only then for every body that begins with anything but a `%` |
| `LogsSql.IndexReproducesItself` | internal/admin/logs.go:239-262 | a body and a path, both `%[1]s`, for which the template comes out as written although the path holds a `%` |
| `LogsSql.ExportScript` | internal/admin/logs.go:232-262 | without a `%` in path and format the export script lexes to the seven statements and one COPY around the query, with path and format as literals |
| `NetworkPolicies.KubernetesAPIEgressPeers` | internal/reconcilers/helpers.go:703-757 | every discovered address and port, each once, never an empty list; the fallbacks |
| `NetworkPolicies.CollectValidationPorts` | internal/reconcilers/networkpolicies.go:623-633 | the distinct valid validation ports, in order |
| `NetworkPolicies.LetsInIff` | internal/reconcilers/networkpolicies.go:408-735 | the ingress side of the namespace's pods as a table, for sources in any namespace; other pods are not restricted |
| `NetworkPolicies.LetsOutIff` | internal/reconcilers/networkpolicies.go:286-758 | the egress side of the namespace's pods as a table, for destinations anywhere and every port: DNS, Vault, object store, HTTPS, service, validation and API ports; other pods are not restricted |
| `NetworkPolicies.PermittedIff` | internal/reconcilers/networkpolicies.go:214-231 | the union of policies permits exactly the listed flows between pods of the namespace, for every labelling, probe spec and meaning of outside addresses |
| `NetworkPolicies.DatabaseFlows` | internal/reconcilers/networkpolicies.go:684-758 | a database pod is reached on 5432 exactly from SMD, boot-service and its own CNPG cluster |
| `NetworkPolicies.SMDFlows` | internal/reconcilers/networkpolicies.go:408-440 | SMD is reached on 27779 exactly from boot-service, metadata-service, CoreDHCP and Magellan |

## Left out

- Deployment, Service, PDB, Certificate and DaemonSet contents: literals whose correctness is their text.
- Route rewrites, timeouts and rate-limit settings of the gateway, and `Status.Gateway`.
- Certificate and PEM handling, random generation, HTTP calls to Vault and S3, netlink, DNS and pod exec: they enter as outcomes.
- Per-object admission checks (addresses, issuers, redirect URIs, images, probe targets at admission) and defaulting: they enter
  `Admission.Validate` as the list of errors they produce.
- Credential contents: `Seeding` treats what is stored at a KV path as one value, so that the user name equals the database role
  is not stated.
- DuckDB's grammar beyond its lexical level, and the meaning of user-supplied SQL.
- Describe and dry-run, metrics, events, logging, backup and restore, log collection: text and I/O.
- `nodeToCluster` and the other watch mappings: easy members.
- Deletion.World.ReconcileDelete: an accepted namespace deletion counts as done; that Kubernetes then empties it is not modelled.
- LogsSql.AssembleSQL: for an export template with a directive outside the model of Sprintf it says so instead of giving the text.
- LogsSql.ExportIff: says nothing of templates with a directive outside the model of Sprintf.
