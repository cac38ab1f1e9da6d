# Verified model of the TiProxy machine operator

The operator runs groups of TiProxy machines. Its controller gives every machine port of a group
a frontend port, matches database links to those ports, and makes a cloud provider expose them
through load balancers. An agent on each machine renders the resolved links into a TiProxy
configuration, applies it, and reports back through the group's shared status.

This project restates that logic in Dafny and proves what it is meant to guarantee. Code that
the source writes as loops over maps and slices is a method here, proved equal to a
specification function or to a relation between the states before and after; objects the source
updates in place are classes. The main results are lemmas about those specifications, over all
inputs and over runs of any length.

| file | source | contents |
|---|---|---|
| `Prelude`, `Sorting`, `Api` | | int32, string order, trimming, sorting, the API objects |
| `PortAllocator`, `AllocatorProperties`, `ServingOrder` | `internal/portallocator` | the three allocation phases and their laws |
| `LinkMatching` | `internal/controller` | matching links to ports |
| `Render`, `RenderedLines` | `internal/agent/config` | the rendered configuration, and what stands in its lines |
| `LoadBalancerNames` | `api/v1alpha1` | load balancer normalisation |
| `LinkHash` | `internal/controller` | which changes of a resolved link its hash shows |
| `Controller`, `ReconcileOutcome` | `internal/controller` | a reconcile as a step on the status, runs of reconciles, and what one leaves behind |
| `CloudExposure`, `CloudConvergence`, `CloudOutcome`, `CloudCompletion`, `CloudIdempotence`, `CloudFailures` | `internal/cloud/aws` | load balancer exposure against a cloud whose calls may fail |
| `RollingRefresh` | `internal/cloud/aws` | image rollouts |
| `ResourceName`, `Placement` | `internal/cloud/aws` | resource names, choice of subnets |
| `MergePatch`, `StatusProtocol`, `StaleCache` | `internal/agent`, `internal/controller` | JSON merge patches and the status shared without locks |
| `Agent` | `internal/agent` | the agent's sync as a machine that fails and restarts |
| `Delivery` | `internal/controller`, `internal/agent` | what the container runs after a reconcile and a sync |
| `Readiness` | `internal/controller`, `internal/cloud/noop` | when a machine port counts as ready |

`dafny verify dfyconfig.toml` checks everything. Every lemma carries `{:induction false}`: each proof is
the one written down, and none rests on a hypothesis the verifier makes up by itself.

## How the outside world is modelled

- Calls into Kubernetes, AWS and Docker either fail and change nothing or do what their name says.
  `CloudExposure.Cloud` decides that anew at each call, unless it is `reliable`; `Controller.Input`,
  `RollingRefresh.Call` and `Agent.Sync` carry the outcome of every call as data, so that runs are
  quantified over all of them. `Agent` also covers a torn file write, a push that is applied although it seems to fail,
  and a container that restarts by itself.
- Go's random map order is an arbitrary choice of the next element.
- Identifiers that AWS assigns, SHA-256 and the order in which AWS lists target groups are function
  parameters, with what is needed of them (no collisions, hex digits, nothing listed twice, no empty identifier) as
  hypotheses.
- int32 arithmetic wraps explicitly (`Prelude.Wrap32`).

## Where the code does less than it seems to promise

Each of these is stated for the code as it is: a run or an input that shows it, and the exact
condition under which the promise holds.

- At `end` = 2^31-1 the allocator's cursor overflows and hands out negative ports
  (`AllocatorProperties.CursorWrapsAtTop`). The ports lie in the range exactly when it holds all UIDs
  (`AllocatorProperties.AllocationSound`); links never get one of the negative ports
  (`Controller.ResolvedAfterWrite`), and with exposure on their machine ports are not ready
  (`Readiness.NoopPass`).
- A link without a namesake machine port loses its port when another one joins in front of it
  (`Controller.LeftoverMoves`, with an instance in `Controller.LeftoverMovesInstance`). It has a given port exactly when as many smaller ports are left over
  as such links come before it (`Controller.LeftoverResolvedIff`).
- The hash of a resolved link is taken of its fields with nothing between them, so it does not see
  every change (`LinkHash.HashAmbiguous`): digits can move from the user to the port, addresses can
  be split differently, and a missing TLS secret looks like one without a name. Between entries
  whose fields have equal lengths it sees every difference (`LinkHash.EqualLengthsShow`). Of a
  change in one field it sees exactly those that change the concatenated addresses, the secret's
  name, or any other field (`LinkHash.OneFieldShows`).
- Normalised load balancer names can repeat (`LoadBalancerNames.SameNameAccepted`). They are
  distinct exactly when no explicit name is one generated for a nameless entry
  (`LoadBalancerNames.NamesDistinctIff`).
- A target group whose listener is deleted before the call that deletes it fails is never collected
  (`CloudFailures.Orphaned`, `CloudFailures.NeverCollected`). A completed run deletes and detaches
  the target group of an unwanted port exactly when a listener of the group still forwards to it at
  the start (`CloudFailures.CollectedIff`).
- Exposing the same ports a second time can move an attachment between two target groups of one
  port, when the cloud lists them the other way round (`CloudIdempotence.OrderMatters`). A completed
  run changes nothing exactly when the load balancers are at rest and what is attached is what it
  would attach (`CloudIdempotence.IdleIff`). After a completed run that is so if target groups are
  listed in one fixed order, no listener forwarded to a missing target group, and none had the name
  of one to create with another port (`CloudIdempotence.SecondRunIdle`).
- A listener that stays as it is and also forwards to a target group of an unwanted port keeps that
  from being deleted, and the run from completing. A pass whose names are free is blocked by nothing
  else (`CloudCompletion.DoableIff`). When no call is lost, a run completes exactly when every pass
  of it is possible and the group exists (`CloudCompletion.CompletesIff`).
- A failed tag write after a started refresh costs another refresh of the same image
  (`RollingRefresh.UnrecordedRepeats`). With machines running, the refreshes started are exactly the
  moves of the tag plus those failed writes (`RollingRefresh.RolloutsAccountedFor`).
- Below twelve characters a resource name can end in a dash (`ResourceName.ShortNameEndsInDash`);
  `ResourceName.WellNamedIff` says when. The one length in use is 32.
- An agent that shuts down can remove the records of others (`StatusProtocol.RemovalWipes`). It
  leaves them alone exactly when its copy shows another machine or the store holds none
  (`StatusProtocol.RemoveIsAtomicIff`).
- Stale machines that the controller prunes stay in the stored status
  (`StatusProtocol.PrunedSurvives`); they are gone afterwards exactly when they were gone before
  (`StatusProtocol.PruningPersistsIff`).
- A controller that starts from an old copy of the status can store one port for two machine ports
  (`StaleCache.OldCopyShares`), exactly when it sends one of them a port that is stored for another
  one its patch leaves alone (`StaleCache.SharedIff`). The store holds what was computed exactly when
  the two agree on every UID the patch leaves alone (`StaleCache.StoredAsComputedIff`); so no port is
  shared in a run whose reconciles go through with fresh copies (`StaleCache.NeverSharedThroughCache`).
- The agent can report a configuration the container does not run (`Agent.AgentFooled`). A
  successful sync converges exactly when its memory does not mistake another running configuration
  for the rendered one (`Agent.SyncLeaves`).

## Model

| member | source | states |
|---|---|---|
| PortAllocator.FindNext | internal/portallocator/allocator.go:89-100 | the cursor closure returns the least unused port from its position on, passes it, and never goes back; the int32 increment wraps, but not below the largest int32 |
| PortAllocator.CollectRequests | internal/portallocator/allocator.go:27-39 | repeated UIDs are dropped and nameless requests get their UID as name |
| PortAllocator.ApplyPins | internal/portallocator/allocator.go:51-65 | first phase: pins, or the first pin outside the range or claimed twice as an error |
| PortAllocator.KeepExisting | internal/portallocator/allocator.go:67-87 | second phase: previous in-range ports not taken yet are kept, in (Name, UID) order |
| PortAllocator.FillFree | internal/portallocator/allocator.go:89-113 | third phase: the loop with the never-rewinding cursor gives each remaining request the least free port, as if searched afresh each time |
| PortAllocator.ReconcilePorts | internal/portallocator/allocator.go:19-116 | the whole allocation computes the specification the following rows are about, error cases included |
| AllocatorProperties.ExactSuccess | internal/portallocator/allocator.go:19-116 | allocation succeeds if and only if all pins are in range, no two UIDs pin one port, and there are no more UIDs than ports (2^32 of them at the top of int32) |
| ServingOrder.SucceedsIff | internal/portallocator/allocator.go:19-116 | the same on the requests as they come: it counts the first request of each UID, whatever the previous map |
| ServingOrder.FailureExplained | internal/portallocator/allocator.go:20-65 | which failure is reported and what it names: the bad bound, a pin outside the range, two requests with one pin in serving order, or the number of UIDs |
| ServingOrder.ServedAre | internal/portallocator/allocator.go:27-39 | served are exactly the first requests of each UID, under their name or else their UID |
| ServingOrder.ServedInOrder | internal/portallocator/allocator.go:40-45 | an earlier served request has the smaller name, or the same name and the smaller UID |
| ServingOrder.FirstGetsSmallerPort | internal/portallocator/allocator.go:40-113 | of two requests without pin and previous port the one with the smaller name, or on equal names the smaller UID, gets the earlier position of the range, and the smaller port if the range holds all UIDs |
| AllocatorProperties.AllocationSound | internal/portallocator/allocator.go:47-113 | whatever the previous map held, the result gives exactly the requested UIDs distinct ports and honours all pins; all ports are in range if and only if the range holds all UIDs |
| AllocatorProperties.OverflowIsNegative | internal/portallocator/allocator.go:89-113 | every port is in range, or it is negative and the whole range has been given out |
| AllocatorProperties.KeptExactly | internal/portallocator/allocator.go:67-87 | an unpinned request comes out with its previous port, in range, if and only if that port is in range, pinned by nobody, and held by no earlier request |
| AllocatorProperties.PortKept | internal/portallocator/allocator.go:67-87 | from an injective map nothing but the range and the pins moves a request off its port |
| AllocatorProperties.FreshPortsInOrder | internal/portallocator/allocator.go:89-113 | the j-th unsatisfied request in (Name, UID) order gets the j-th smallest port that pins and kept allocations leave free |
| AllocatorProperties.OrderIndependent | internal/portallocator/allocator.go:27-45 | for distinct UIDs any permutation of the requests gives the same map or the same failure |
| AllocatorProperties.Idempotent | internal/portallocator/allocator.go:47-113 | a second pass that reads the result of the first returns it unchanged, from any starting map |
| AllocatorProperties.CursorWrapsAtTop | internal/portallocator/allocator.go:89-100 | two requests on the range consisting of 2^31-1 alone: the second gets the port -2^31 instead of an error |
| LinkMatching.AssignPortsToLinks | internal/controller/machinegroup_controller.go:267-360 | the two-phase matcher computes the specification the next two rows are about |
| LinkMatching.MaximumMatching | internal/controller/machinegroup_controller.go:267-360 | min(links, usable ports) links get pairwise distinct ports of the allocation, every link with a namesake gets its port, and exactly the others are reported |
| LinkMatching.ErrorsTell | internal/controller/machinegroup_controller.go:288-357 | a link without a port is told that there is none at all, or how many links and machine ports with a port there are |
| LinkMatching.LeftoversAscend | internal/controller/machinegroup_controller.go:317-345 | links without namesake get ascending ports in list order; no unused port is smaller than one given to them |
| LinkMatching.LeftoverExactly | internal/controller/machinegroup_controller.go:317-345 | a link without namesake gets exactly the left-over port with as many smaller ones as there are such links before it |
| LinkMatching.NewcomerMoves | internal/controller/machinegroup_controller.go:317-345 | a link without namesake listed before another one takes its port away |
| Render.BuildTiProxyConfig | internal/agent/config/render.go:22-76 | the written lines are the specified ones: defaults, range, clusters, or the first error |
| RenderedLines.LinesRead | internal/agent/config/render.go:22-76 | line by line: the proxy address and port range come first, then for every link and no other, strictly by name, a heading, its effective name, its trimmed non-blank PD addresses joined by commas, and its name servers exactly if not blank; last the routing rule and the API address |
| RenderedLines.RenderFailure | internal/agent/config/render.go:22-126 | a negative API port, or else the first link with a bad port, a name used before, or no PD address, in this order, is what the error names |
| Render.RenderSucceedsIff | internal/agent/config/render.go:22-126 | rendering succeeds if and only if the API port is not negative, every link has a positive port and a non-blank PD address, and effective cluster names differ |
| Render.ClustersOfLinks | internal/agent/config/render.go:89-126 | the clusters are those of the links, one for each, strictly increasing by name |
| Render.RenderIgnoresLinkOrder | internal/agent/config/render.go:22-126 | permuting the links keeps success or failure and, on success, gives the same lines |
| Render.RangeCovers | internal/agent/config/render.go:38-52 | the rendered port range contains every link's port, unless a valid range is configured that does not |
| Render.InferredSpec | internal/agent/config/render.go:135-150 | the inferred range is the least and greatest positive port, and zero only without one |
| Render.RenderFaithful | internal/agent/config/render.go:22-76 | equal configurations announce the same range, clusters and API port |
| LoadBalancerNames.NormalizeLoadBalancers | api/v1alpha1/types_common.go:142-188 | an absent list means one internal load balancer; otherwise names and scopes are the specified ones, or the first repeated explicit name or unsupported scope is reported |
| LoadBalancerNames.DefaultIsInternal | api/v1alpha1/types_common.go:143-148 | the default list is one load balancer, named and scoped internal |
| LoadBalancerNames.NamedAsWritten | api/v1alpha1/types_common.go:134-178 | scopes come out trimmed, blank ones internal; names as written; a missing name is the scope, numbered from 2 on by the earlier entries that claim it |
| LoadBalancerNames.AcceptedIff | api/v1alpha1/types_common.go:142-188 | a list is accepted if and only if no trimmed name repeats and every scope is internal or external, in any case, or blank |
| LoadBalancerNames.RejectedBecause | api/v1alpha1/types_common.go:157-186 | the error names a name that repeats, or, if none does, the first unknown scope |
| LoadBalancerNames.GeneratedNamesDistinct | api/v1alpha1/types_common.go:163-177 | names generated for nameless entries are pairwise distinct |
| LoadBalancerNames.NamesDistinctIff | api/v1alpha1/types_common.go:142-188 | all output names are distinct if and only if no explicit name is one generated for a nameless entry |
| LoadBalancerNames.DistinctUnlessLooksGenerated | api/v1alpha1/types_common.go:142-188 | it suffices that no explicit name is a scope word, optionally followed by a number |
| LoadBalancerNames.SameNameAccepted | api/v1alpha1/types_common.go:157-178 | a nameless internal entry before one named internal is accepted with the same name twice |
| Controller.BuildResolvedLinks | internal/controller/machinegroup_controller.go:362-393 | the resolved links are those of the links with a port, in order, with defaults filled in and the text their hash is taken of |
| ReconcileOutcome.ResolvedDescribe | internal/controller/machinegroup_controller.go:362-393 | after a reconcile that goes through each resolved link describes a listed one, in order: its fields as written, the route and cluster name trimmed or defaulted, and the text its hash is taken of |
| LinkHash.ResolvedLinkHash | internal/controller/machinegroup_controller.go:646-663 | the text fed to SHA-256 is the concatenation of the pieces the next rows are about |
| LinkHash.HashTextIs | internal/controller/machinegroup_controller.go:646-663 | that text, field by field |
| LinkHash.EqualLengthsShow | internal/controller/machinegroup_controller.go:646-663 | between entries whose fields have pairwise equal lengths the text is the same if and only if all hashed fields are |
| LinkHash.OneFieldShows | internal/controller/machinegroup_controller.go:646-663 | a change of any one field alone changes the text, except that addresses count as their concatenation and a missing secret as an empty name |
| LinkHash.HashAmbiguous | internal/controller/machinegroup_controller.go:646-663 | three pairs of different entries with the same text: user and port, addresses, secret |
| Controller.MachineGroup.MarkError | internal/controller/machinegroup_controller.go:604-623 | giving up changes the reason of the Ready condition and nothing else |
| Controller.MachineGroup.Reconcile | internal/controller/machinegroup_controller.go:42-179 | one reconcile takes the status to the specified next one, on every failure path |
| ReconcileOutcome.WritesIff | internal/controller/machinegroup_controller.go:56-166 | whether a reconcile goes through is up to its input alone: a valid range, known scopes and unrepeated load balancer names, at most 50 machine ports whose pins and number fit the range, and calls that succeed |
| ReconcileOutcome.EarlyReasons | internal/controller/machinegroup_controller.go:56-100 | from the input, exactly when InvalidPortRange, InvalidExposure, TooManyMachinePorts and PortAllocationFailed are written |
| ReconcileOutcome.ReasonAfterWrite | internal/controller/machinegroup_controller.go:128-162 | from the input, exactly when CloudEnsureFailed, Ready and InsufficientMachinePorts are written: a cloud error comes first, and then it is Ready if and only if there is a usable port for every link |
| ReconcileOutcome.NewPortsByName | internal/controller/machinegroup_controller.go:79-88 | new machine ports get ports in the order of namespace/name |
| ReconcileOutcome.SameKeyIff | internal/controller/machinegroup_controller.go:302-326 | a link and a machine port are namesakes exactly if they agree in namespace and name |
| Controller.AllocationChangesOnlyByWrites | internal/controller/machinegroup_controller.go:56-126 | one reconcile that fails anywhere leaves allocation and resolved links as they were; one that goes through stores a fresh allocation |
| Controller.UnchangedByFailures | internal/controller/machinegroup_controller.go:56-126 | outages of any length leave them alone |
| Controller.NeverShared | internal/controller/machinegroup_controller.go:88-125 | no run of reconciles ever stores one port for two machine ports |
| Controller.PortStable | internal/controller/machinegroup_controller.go:88-125 | over any run, failures included, a machine port keeps its port as long as it stays listed, in range, not re-pinned, and nobody else pins it |
| Controller.WriteResolvesNamesake | internal/controller/machinegroup_controller.go:302-326 | every reconcile that goes through resolves a link to the port of its namesake machine port |
| Controller.LinkPortStable | internal/controller/machinegroup_controller.go:302-326 | over any run, failures included, a link stays resolved to its namesake's port while both stay listed and the machine port undisturbed |
| Controller.LeftoverResolvedIff | internal/controller/machinegroup_controller.go:317-345 | exactly which port a link without namesake is resolved to, whatever it had before |
| Controller.LeftoverMoves | internal/controller/machinegroup_controller.go:317-345 | a run of two reconciles with the same machine ports and allocation in which such a link loses its port to a newcomer |
| Controller.LeftoverMovesInstance | internal/controller/machinegroup_controller.go:317-345 | from any status: one machine port, links "w" and then "v", "w"; both reconciles go through and "w" loses its port |
| Controller.ResolvedAfterWrite | internal/controller/machinegroup_controller.go:97-126 | after a reconcile that goes through, min(links, machine ports, size of the range) links are resolved, to ports of the range |
| Controller.EndToEnd | internal/controller/machinegroup_controller.go:97-126 | right after such a reconcile every resolved port lies in the port range the agent renders; rendering succeeds if and only if PD addresses and names allow it, with one cluster per resolved link |
| CloudExposure.ListenerForwardsTo | internal/cloud/aws/manager.go:611-628 | decides whether some action of the listener forwards to the target group, directly or weighted |
| CloudExposure.EnsureListener | internal/cloud/aws/manager.go:573-609 | creates, repairs or leaves one listener, and touches no other |
| CloudExposure.CreateMissing | internal/cloud/aws/manager.go:220-230 | in whatever order ports come up, exactly the missing target groups get created, or those of some of the missing ports when a creation fails |
| CloudExposure.EnsureListeners | internal/cloud/aws/manager.go:248-265 | in whatever order ports come up, the listeners of the ports done and their status entries are the specified ones, also when it stops halfway |
| CloudExposure.ExposeOne | internal/cloud/aws/manager.go:196-300 | one pass leaves exactly the specified listeners and target groups; when a call fails, what it leaves is a stage of that pass: creating target groups, settling listeners, deleting listeners, deleting target groups |
| CloudExposure.DedupeStrings | internal/cloud/aws/manager.go:320-334 | same elements, each once |
| CloudExposure.ReconcileASGTargetGroups | internal/cloud/aws/manager.go:630-688 | on success the attachments are (before minus managed) plus desired; on failure, a failed call or a group that does not exist, they are as before, or before plus desired |
| CloudExposure.EnsureNetworkLoadBalancer | internal/cloud/aws/manager.go:336-371 | finds or creates a network load balancer that faces the internet if and only if the trimmed scope is external in any case; on any error nothing has changed, and an existing load balancer of another type or scheme is what it names |
| CloudExposure.CollectDesired | internal/cloud/aws/manager.go:150-187 | the ports to expose, or the first unsupported protocol or shared port |
| CloudExposure.DesiredSpec | internal/cloud/aws/manager.go:150-187 | every listed machine port with a positive port is there under its port, and no UID has two |
| CloudOutcome.DesiredAre | internal/cloud/aws/manager.go:150-187 | exposed are exactly the positive ports of listed machine ports, each under its UID |
| CloudOutcome.ExposedPorts | internal/cloud/aws/manager.go:150-187 | all can be exposed if and only if each speaks TCP, by a blank protocol or "tcp" in any case, and none has the port of an earlier one; else the error names the first that does not |
| CloudExposure.EnsureLoadBalancerExposure | internal/cloud/aws/manager.go:141-318 | a run without error is a sequence of complete passes with the specified outputs; one with an error got through some passes and stages of it, and the error names its cause; the cloud stays well-formed, so runs chain |
| CloudConvergence.RunConverges | internal/cloud/aws/manager.go:141-318 | from any cloud state a run without error leaves on every load balancer listeners for exactly the desired ports, each forwarding to an existing, attached target group of its port; attachments are (before minus managed) plus wanted |
| CloudConvergence.PassKeepsConverged | internal/cloud/aws/manager.go:196-300 | a later pass does not undo an earlier one, even over the same load balancer |
| CloudOutcome.SchemeWritten | internal/cloud/aws/manager.go:336-371 | after a completed run every load balancer is there, of network type, and internet-facing if and only if the trimmed scope is external in any case; one that was there before is unchanged |
| CloudOutcome.SchemeAsWritten | internal/cloud/aws/manager.go:342-345 | the same for the scopes as they were before normalization |
| CloudOutcome.DefaultStaysInternal | internal/cloud/aws/manager.go:342-345 | exposing the default list opens nothing to the internet |
| CloudCompletion.CompletesIff | internal/cloud/aws/manager.go:141-318 | a run in which no call is lost, past the checks of subnets and ports, completes if and only if the group exists and each iteration meets a load balancer of the right type and scheme (or none), free names for the target groups it creates, and no listener left that forwards to one it deletes |
| CloudCompletion.CompletedWasCompletable | internal/cloud/aws/manager.go:141-318 | whatever calls are lost, no other run completes |
| CloudCompletion.DoableIff | internal/cloud/aws/manager.go:220-299 | once names are free, exactly a listener that stays as it is, on this load balancer or another, and forwards to a target group of an unwanted port stands in the way of a pass |
| CloudIdempotence.SecondRunIdle | internal/cloud/aws/manager.go:141-318 | with one listing order, no listener forwarding to a missing target group and no name taken for another port, a second completed run for the same ports leaves listeners, target groups and attachments as they are and returns the same statuses, also when load balancers are named twice |
| CloudIdempotence.IdleIff | internal/cloud/aws/manager.go:141-318 | any completed run leaves the cloud as it was if and only if every desired port was served by the target group that is found for it, no listener or target group was in excess, and exactly what is wanted of the managed was attached |
| CloudIdempotence.OrderMatters | internal/cloud/aws/manager.go:211-219 | two completed runs for one port whose listener forwards to a weighted pair of target groups, between which their listing order changes: the attachment moves |
| CloudFailures.CompletedKeeps | internal/cloud/aws/manager.go:141-318 | a completed run neither deletes nor detaches a target group that its load balancers do not forward to and that it does not create |
| CloudFailures.FailedKeeps | internal/cloud/aws/manager.go:141-318 | nor does a run that fails, wherever it stops |
| CloudFailures.NeverCollected | internal/cloud/aws/manager.go:141-318 | nor do any number of runs, whatever ports they want and whichever calls fail |
| CloudFailures.Orphaned | internal/cloud/aws/manager.go:271-299 | a failed run that puts one of the group's own target groups out of reach in this way |
| CloudFailures.CollectedIff | internal/cloud/aws/manager.go:211-300 | a completed run deletes and detaches the target group of an unwanted port if and only if a listener of the group's load balancers forwards to it when the run starts |
| CloudConvergence.RunsAgree | internal/cloud/aws/manager.go:220-316 | two completed runs from one state end in the same cloud state with the same statuses: map iteration order cannot be observed |
| CloudConvergence.StatusComplete | internal/cloud/aws/manager.go:264-316 | every desired machine port gets one entry per load balancer, strictly sorted by name |
| CloudOutcome.StatusTruthful | internal/cloud/aws/manager.go:248-265 | the entries tell what the cloud holds: the load balancer, its address, its listener for the port, and the attached target group it forwards to, unless a later entry names the same load balancer |
| CloudOutcome.LbStatusTruthful | internal/cloud/aws/manager.go:205-210 | the group's statuses list exactly its load balancers by name, with scope, identifier and address |
| RollingRefresh.AutoScaling.HasActiveInstanceRefresh | internal/cloud/aws/manager.go:1026-1042 | true if and only if some listed refresh is pending, in progress or cancelling |
| RollingRefresh.AutoScaling.EnsureImageRollingRefresh | internal/cloud/aws/manager.go:987-1024 | the specified next state; without error the image is recorded or its rollout put off behind an active refresh |
| RollingRefresh.AutoScaling.EnsureAutoScalingGroup | internal/cloud/aws/manager.go:926-984 | the same for the whole call, creation of the group included |
| RollingRefresh.StartedIff | internal/cloud/aws/manager.go:987-1042 | a refresh starts if and only if the group is there with machines and a tag, the call asks for another image, every refresh listed is over, and the cloud agrees |
| RollingRefresh.TagAfter | internal/cloud/aws/manager.go:939-1024 | what the tag is after any call: new groups, groups without tag and without machines get the image asked for, others only with a refresh |
| RollingRefresh.StartedOnlyWhenNeeded | internal/cloud/aws/manager.go:987-1024 | a refresh starts only for another image, with machines running and no active refresh reported; the tag of a running group never changes image without one |
| RollingRefresh.OneRefreshPerChange | internal/cloud/aws/manager.go:987-1024 | over any run at most 1 + image changes + started refreshes whose tag write failed are started |
| RollingRefresh.RolloutsAccountedFor | internal/cloud/aws/manager.go:987-1024 | with machines running, refreshes started = moves of the tag + failed tag writes, over any run |
| RollingRefresh.RecordedStays | internal/cloud/aws/manager.go:997-999 | a recorded image is never rolled out again while the specification stays with it |
| RollingRefresh.UnrecordedRepeats | internal/cloud/aws/manager.go:1012-1023 | the last summand is needed: with a tag that cannot be written, n calls for one image start n refreshes |
| ResourceName.CollapseDashes | internal/cloud/aws/manager.go:1234-1236 | the repeated replacement terminates and equals one pass that collapses runs of dashes |
| ResourceName.AwsResourceName | internal/cloud/aws/manager.go:1208-1251 | the algorithm computes the function the next rows are about |
| ResourceName.FullNameIs | internal/cloud/aws/manager.go:1208-1236 | before truncation a name is the words of the raw one in lower case, that is its stretches of letters and digits, joined by dashes, after "tpm" if there are none or the first starts with a digit |
| ResourceName.ShortenedIs | internal/cloud/aws/manager.go:1237-1250 | a name too long keeps its beginning up to the last character that is no dash, then a dash and its digest; below twelve characters it is cut |
| ResourceName.Sanitizes | internal/cloud/aws/manager.go:1208-1251 | for every input and length from 12 on: at most that long, letters, digits and dashes only, starts with a letter, no double dash, no dash at the end, and idempotent |
| ResourceName.WellNamedIff | internal/cloud/aws/manager.go:1237-1243 | at any length, exactly when the result has that shape |
| ResourceName.ShortNameEndsInDash | internal/cloud/aws/manager.go:1243-1245 | "a-b" cut to two characters ends in a dash |
| ResourceName.LongNamesApart | internal/cloud/aws/manager.go:1240-1250 | two shortened names coincide only if their digests do |
| Placement.Scan | internal/cloud/aws/manager.go:774-804 | the scan selects what is specified or stops at the first requested subnet that does not fit |
| Placement.SelectPlacementSubnets | internal/cloud/aws/manager.go:741-816 | success if and only if something is requested, all of it is known and in one VPC, and every failure domain asked for has a requested subnet; then the subnets are the requested ones in allowed zones, the zones are theirs in first-occurrence order without repeats, and equal to the domains asked for; an error names what stands in the way |
| Placement.AchievableIff | internal/cloud/aws/manager.go:741-816 | on the lists themselves: a selection exists if and only if all requested subnets are described, the last description of each counting, in one VPC that is not blank, and every failure domain asked for is the zone of one |
| Placement.SelectionIs | internal/cloud/aws/manager.go:774-816 | it holds the requested subnets in admitted zones, in order, their VPC, and their zones |
| Placement.ErrorIs | internal/cloud/aws/manager.go:741-816 | what each error says about the lists is so |
| Placement.ChosenOccurs | internal/cloud/aws/manager.go:789-798 | each requested subnet of an allowed zone is chosen as often as requested, others never |
| MergePatch.RoundTrip | internal/agent/agent.go:174-186 | applying the patch from a to a null-free b onto a gives b |
| MergePatch.RoundTripIff | internal/agent/agent.go:174-186 | and in general exactly when what changes is free of nulls |
| MergePatch.PatchAt | internal/agent/agent.go:174-186 | the round trip holds key by key on a document that has changed elsewhere |
| MergePatch.PatchLeaves | internal/agent/agent.go:174-186 | a patch changes nothing where its two documents agree, whatever it is applied to |
| MergePatch.PatchedKey | internal/agent/agent.go:174-186 | applying a patch goes key by key, as section 2 of RFC 7396 has it: null removes, objects are patched in turn, anything else replaces |
| StaleCache.MergeSpec | internal/controller/machinegroup_controller.go:88-166 | which allocated ports are stored after the patch of a reconcile, whatever its copy showed and whatever else it changes |
| StaleCache.StoredAsComputedIff | internal/controller/machinegroup_controller.go:88-166 | the store holds the computed allocation if and only if it agrees with it on every UID the patch leaves alone, or the patch drops the map |
| StaleCache.SharedIff | internal/controller/machinegroup_controller.go:88-166 | two machine ports end up with one port if and only if the patch sends one a port that is stored for another one it leaves alone |
| StaleCache.NeverSharedThroughCache | internal/controller/machinegroup_controller.go:88-166 | no port is shared in a run of any length with reads as old as one likes, as long as those reconciles that go through have seen the stored ports |
| StaleCache.OldCopyShares | internal/controller/machinegroup_controller.go:88-166 | a run of two reconciles, one with an old copy, that stores one port for two listed machine ports |
| StatusProtocol.UpsertMachineStatus | internal/agent/agent.go:167-188 | the heartbeat's patch writes exactly this machine's record, however old the rest of the copy it was computed from |
| StatusProtocol.RemoveMachineStatus | internal/agent/agent.go:190-218 | the shutdown patch removes this machine's record and nothing else if and only if the copy shows another machine or the store holds none |
| StatusProtocol.PruneStaleMachineStatuses | internal/controller/machinegroup_controller.go:625-644 | exactly the stale machines are dropped, in whatever order they come up |
| StatusProtocol.PatchControllerFields | internal/controller/machinegroup_controller.go:118-166 | with pruning done before the base is copied, the patch replaces the controller's fields and nothing else |
| StatusProtocol.OwnPatchIsAtomic | internal/controller/machinegroup_controller.go:118-166 | it replaces the controller's fields and no machine record; pruning is not persisted |
| StatusProtocol.PruningPersistsIff | internal/controller/machinegroup_controller.go:118-123 | pruned machines are gone from the stored status if and only if they were before |
| StatusProtocol.PrunedSurvives | internal/controller/machinegroup_controller.go:118-123 | a run in which a pruned machine stays stored |
| StatusProtocol.RemoveIsAtomicIff | internal/agent/agent.go:190-218 | a shutdown removes the agent's own record and nothing else if and only if its copy shows another machine or the store holds none |
| StatusProtocol.RemovalWipes | internal/agent/agent.go:210-214 | a run in which a shutdown removes another agent's record |
| StatusProtocol.RunIsAtomic | internal/agent/agent.go:167-188 | any interleaving of reads and patches by the controller and agents with distinct IDs has the effect of atomic writes in patch order |
| StatusProtocol.LastWritesWin | internal/agent/agent.go:167-188 | the stored record of a machine is always the last its agent wrote, and the controller's fields its last ones |
| Agent.Machine.SyncOnce | internal/agent/agent.go:78-147 | the specified next state on every failure path; a successful sync of a coherent machine converges |
| Agent.Machine.WriteConfigFile | internal/agent/agent.go:292-304 | the write is skipped when the file holds the content already |
| Agent.SyncSucceedsIff | internal/agent/agent.go:78-147 | exactly when a sync succeeds |
| Agent.ReportTells | internal/agent/agent.go:91-146 | a report that gets through is Failed if and only if the sync fails, with an empty hash when nothing could be rendered; on success it is Starting if and only if the container was down before, else Running |
| Agent.SyncTouches | internal/agent/agent.go:105-146 | whatever fails, file, container and memory only move to the rendered configuration, the container not before the file, the memory not before the container runs it or is taken to |
| Agent.SyncLeaves | internal/agent/agent.go:119-146 | from any state, a successful sync leaves file, container, memory and report equal to the rendered configuration if and only if the agent does not mistake another running one for it |
| Agent.SyncConverges | internal/agent/agent.go:78-147 | after any harmless run of failures, agent restarts and container stops a successful sync converges |
| Agent.AgentFooled | internal/agent/agent.go:119-126 | a run with an unnoticed push or a container restart in which the agent reports one configuration and the container runs another |
| Delivery.Delivered | internal/agent/agent.go:78-147 | once a sync that reads what a reconcile wrote succeeds, after any harmless run, the container runs and reports a configuration whose lines open the group's port range and list the clusters of exactly the min(links, usable ports) resolved links, with their names, addresses and name servers, route by port and serve the API |
| Delivery.DeliveredIff | internal/agent/agent.go:91-103 | a sync in which no step fails delivers it if and only if the API port is not negative, the cluster names differ, and every link has a non-blank PD address |
| Readiness.CountReadyPortLoadBalancers | internal/controller/machinegroup_controller.go:507-522 | counts the load balancers for which a listener is shown |
| Readiness.SyncMachinePortStatuses | internal/controller/machinegroup_controller.go:395-501 | up to the first status patch that fails, a machine port is written ready if and only if it has a port and exposure is off or worked with a listener on every load balancer, and pending if and only if it has no port |
| Readiness.ReadyIff | internal/controller/machinegroup_controller.go:440-522 | with exposure on, ready means that each load balancer has an entry of its name with a listener |
| Readiness.NoopEnsureMachineGroup | internal/cloud/noop/manager.go:19-71 | an entry per load balancer for exactly the listed machine ports with a positive port |
| Readiness.NoopEntryIs | internal/cloud/noop/manager.go:25-66 | the identifiers it makes up |
| Readiness.NoopPass | internal/cloud/noop/manager.go:35-70 | after a reconcile that goes through, with its own load balancers, a listed machine port ends ready with the noop provider if and only if exposure is off or its port is in the range |
| Readiness.AwsReady | internal/controller/machinegroup_controller.go:458-472 | after an AWS exposure run without error every machine port with a port ends ready |

## Left out

- Conditions except the Ready reason and the port phase; messages, timestamps, observed generations, requeue times.
- Controller.MachineGroup.Reconcile: of the status it models the allocation, the resolved links and the Ready reason; the cloud status, other conditions and the writes on links are not part of it, and those on machine ports are in Readiness by themselves.
- Status patches on links.
- Quoting of TOML strings, SHA-256 itself, and characters whose lower case is not ASCII.
- Nil and empty maps are not told apart.
- Filtering and sorting of listed links and machine ports: the model receives the managed ones in order.
- `Controller.MachineGroup.Reconcile` and the runs in `Controller` read the status last written; what an old copy in the cache does is modelled for the allocated ports, in `StaleCache`.
- Subnets and VPCs of load balancers, tags on cloud resources, the deprecated primary load balancer fields, and the order of identifiers within one request.
- CloudExposure: a listener has a port and every load balancer a table of listeners, so there is one listener per port; a created target group that exists with another port is a failed call; choosing the subnets of a load balancer counts as one call; a target group can belong to several load balancers.
- `CloudOutcome.StatusTruthful`: says nothing about an entry whose load balancer a later entry names again, because the later pass can choose another target group for the port.
- Deleting machine groups and stale load balancers, which looks target groups up only after the listeners are gone.
- Launch templates, user data, scaling bounds, spread policies, and the matching of AWS error texts.
- RollingRefresh: group tags that a specification sets under the operator's own key.
- `PortAllocator.ReconcilePorts`: more than 2^32 distinct UIDs with the largest int32 as end, for which the source's scan would not return.
- `LinkMatching.MaximumMatching`, `Controller.EndToEnd` and their relatives assume distinct UIDs and names, which Kubernetes guarantees.
- StatusProtocol: a removal by shutdown that wipes other records ends a run; what it does is stated by itself.
- Agent: changing the container name or the configuration path between syncs, and resolving image names.
