# Maeto verification

A Dafny model of Maeto, a controller for SRv6 SD-WANs with level-triggered node agents, and proofs
about it. `dafny verify dfyconfig.toml` checks the whole project.

Five parts of the system are modelled.

**Path computation and admission** (`Topology`, `FiniteSums`, `Hose`, `Transport`, `HoseWorstCase`,
`Ledger`, `HoseOrder`, `BandwidthRegistry`, `Admission`, `Cspf`, `Pricing`, `Pce`, `PceRuns`,
`Objectives`, `PceEngine`, `Demands`, `TenantRepository`). Each tick builds a sorted list of
demands, prunes the graph by a ledger of hose-model reservations, searches it, applies hysteresis
and hold-down, and moves reservations. `Pce` states a tick as a relation over ledger, stored paths,
reroute times and costs; `PceEngine` holds the loops and shows that they are steps of that relation;
`PceRuns` proves what every run keeps. The main result, `ContractedTrafficFits`, is what the
controller is for: after any run of ticks, any traffic within the tenants' contracts fits into 95%
of every link. Admission is also no stricter than that: `FitsIff` shows, by a transport plan, that a
flow is refused on a link only if traffic within the contracts, from any source PoP booked there to
any sink PoP of the same class, could overload it. `Objectives` says what the search finds without
naming edge weights: the walk with the least sum of one plus weighted measurements per link.
`HoseOrder` makes the assumption behind the reservation sums exact. Live measurements may change
between any two demands of a tick, as they do in the source, where the search reads live costs and
rescoring reads the tick's snapshot.

**The reconciler** (`Kernel`, `Dataplane`, `Stages`, `Convergence`, `Render`, `RenderFacts`,
`Referents`, `Acceptance`, `Lawfulness`, `Steering`, `Reconciler`). The kernel is a set of maps
whose keys are coarser than resource identifiers, with the side effects that matter: deleting a link
drops what runs over it, creating a vrf brings a catch-all along, deleting a route without a metric
takes the one of lowest metric, and a failed call may leave half its work. Calls the kernel's state
does not allow (refusals) are counted apart from calls that fail for reasons outside the model. An
intent is realizable if no two things it asks for want one kernel key, every path it is granted has
segments and its codepoints fit. A node is suited if it provides free names and the interfaces under
the tunnels and, on a PE, tables and masters of links are the functions of names that rendering
uses, which successful passes keep. `Reconcile` is proved to bring any realizable intent into a
suited node's kernel within three passes unless a call fails from outside, whatever order maps are
iterated in, and to report it done except when a default route was traded on the way (`TwoRoundsIff`
gives the exact condition). No kernel with lawful tables ever holds any other intent
(`HeldOnlyIfRealizable`), and tables stay lawful however many calls fail (`AttemptKeepsTables`).
`Steering` follows a packet through such a kernel: codepoint, mark, rule, table, segments, and on
the other side segment, table, tunnel.

**Intent fencing and segment identifiers** (`Fencing`, `ServiceRegistry`, `SidAllocator`). State
machines with crashes between any two steps, and the registry methods that take their steps. The
reconciler is shown to be the agent of the fencing protocol (`ReconcilerNeverGoesBack`).

**STAMP packets and telemetry** (`Bytes`, `Framing`, `Stamp`, `StampCodec`, `StampLayout`, `Ntp`,
`Ewma`, `LossAccounting`). Nested type-length-value regions as in section 4 of RFC 8972 and section
4.1.1 of RFC 9503 over the base packets of sections 4.2.1 and 4.3.1 of RFC 8762; timestamps as in
section 6 of RFC 5905; exponentially weighted averages against their batch definitions; loss
counting.

**Fault admission in maeto-sim** (`Faults`, `Sim`, `Simulator`). A graph search that guards a state
machine over the fault map, with shaping calls that may fail half way.

Go maps are iterated in an arbitrary order, which is modelled by an arbitrary choice of the next
key. Calls that may fail for reasons outside the model do so by an arbitrary choice.

## What the code does differently from its comments

- Reservation sums count the first reservation met for a PoP and label, at either end. They are well
  defined exactly when reservations agree at both ends (`OrderIrrelevantIffEndsAgree`); demands
  built from one contract do.
- The comment on `staticUtilizationCost` gives an idle link a positive cost; the code gives it zero,
  and only an idle link (`IdleIffFree`).
- A default-class path on an exactly full link is rescored as infinite and so counts as broken
  (`BulkBrokenIff`).
- The first placement of a flow is not recorded as a reroute, so hold-down starts with the first
  change.
- The unreachable catch-all that `UpsertVRF` installs is listed as owned, is never desired, and is
  removed by the next pass (`ConvergedHasNoCatchAll`). With a site prefix of `::/0` in the table of
  a new vrf that removal takes the site's route instead (`DefaultTradedAway`), so the second pass
  leaves it missing (`TwoRoundsIff`). The third puts it back (`ThreeRoundsConverge`), but
  `Reconcile` reports that it could not converge, and only the next delivery finds the diff empty
  (`HeldTradesNothing`).
- A tunnel under the wrong vrf, or under none, is never moved, since identifiers carry no master,
  and blocks its routes for good (`MasterStays`, `RouteAcceptedIff`, `WrongMasterBlocksRoutes`).
- A rule's identifier omits the interface and a segment list enters its own as joined text. So a
  rule of a former tenant of the same table, or a list that joins to the same text, stays in the way
  of the one wanted, and exactly then (`RuleArrivesIff`, `FormerTenantBlocks`, `SegmentsArriveIff`).
- Two tenants whose names hash to one vrf table are both rendered, and no pass over them succeeds in
  full (`SharedTableNeverApplied`).
- `Commit` logs a failed row write without reporting it to its caller.
- After a transaction that committed unheard, every new segment of the same locator is refused for
  as long as only such segments are asked for; a restart ends it (`UnheardSticks`, `StuckRun`).
- `permute` is not the full-period sequence its comment describes: 16-bit arithmetic drops a carry
  (`PermuteIsLcgIff`, `PermuteRepeats`). Uniqueness of segment identifiers rests on the collision
  map and the database keys.
- The container's comment names type 252; the code uses 250.
- A cut whose revert fails is off the record while the link stays down (`LeakDisconnects`).

## Model

| member | source | states |
|---|---|---|
| Topology.NewPceGraph | services/control-plane/pce_graph.go:129-159 | the graph holds exactly the links that are up, each once, and every adjacency list exactly the edges that leave its node, once each |
| Topology.CapacityIsEqualShare | services/control-plane/pce_graph.go:73-84 | a bundle's capacity is the most its members carry together when all carry the same |
| Hose.LoadMonotone | services/control-plane/bandwidth_reservation.go:63-70 | the load of a link is never negative, and dropping reservations never raises it |
| Hose.HoseCoversTraffic | services/control-plane/bandwidth_reservation.go:137-146 | hose soundness: every traffic matrix within all tenants' per-PoP, per-class send and receive contracts puts at most the computed load on a link, for any set of paths booked on it |
| HoseWorstCase.ReserveIsWorstCase | services/control-plane/bandwidth_reservation.go:113-146 | the reservation is exact: from any source PoP of a tenant's flows to any sink PoP of the same label no traffic within its contracts exceeds it, and some traffic within its contracts uses all of it |
| HoseWorstCase.FullMeshIsTight | services/control-plane/bandwidth_reservation.go:137-146 | when the flows of a label are all pairs of some sources with some sinks, traffic over just these flows uses the whole reservation |
| HoseWorstCase.ReserveWithinBothEnds | services/control-plane/bandwidth_reservation.go:137-146 | flows of one label reserve at most what their sources may send and at most what their sinks may take |
| HoseWorstCase.LoadIsWorstCase | services/control-plane/bandwidth_reservation.go:63-70 | the load of a link is exactly the most that all tenants' contracts together allow from any source PoP booked on it to any sink PoP of the same tenant and label |
| Transport.Plan | services/control-plane/bandwidth_reservation.go:137-146 | for any supplies and demands there is traffic that keeps within all of them and uses up every supply or meets every demand, which is why the smaller total is the worst case |
| Ledger.GetBandwidthSums | services/control-plane/bandwidth_reservation.go:113-135 | whatever order the reservations are visited in, the sums are the contract totals over the distinct source PoPs and sink PoPs of each label |
| Ledger.CalculateReservedBandwidth | services/control-plane/bandwidth_reservation.go:137-146 | the result is what the tenant's flows on the link reserve, the sum over labels of the smaller of the send total and the receive total, which `HoseWorstCase.ReserveIsWorstCase` shows to be the most its contracts allow there |
| HoseOrder.OrderIrrelevantIffEndsAgree | services/control-plane/bandwidth_reservation.go:113-135 | both sums are independent of map order if and only if no two reservations that share a label and a PoP at one end, source or sink, state different bandwidths for that end |
| BandwidthRegistry.LoadExcluding | services/control-plane/bandwidth_reservation.go:72-100 | the load of the edge with the key taken out and, if given, the candidate put in |
| BandwidthRegistry.EdgeLoad | services/control-plane/bandwidth_reservation.go:63-70 | the load of all bookings of the edge, tenant by tenant in any order |
| BandwidthRegistry.BandwidthReservationRegistry.ReservedMap | services/control-plane/bandwidth_reservation.go:44-55 | the load of exactly the booked edges |
| BandwidthRegistry.BandwidthReservationRegistry.CheckCapacity | services/control-plane/bandwidth_reservation.go:225-233 | accepts if and only if the load with the candidate is at most 95% of the capacity |
| BandwidthRegistry.BandwidthReservationRegistry.Move | services/control-plane/bandwidth_reservation.go:165-223 | succeeds if and only if the candidate fits on every new edge; then the key is booked on exactly the new edges, off the old ones, and nothing else changed; otherwise nothing changed; no empty entries linger |
| BandwidthRegistry.BandwidthReservationRegistry.PruneGraph | services/control-plane/bandwidth_reservation.go:245-268 | the pruned graph keeps exactly the edges the candidate fits on, with consistent adjacency lists |
| Admission.MoveStaysSafe | services/control-plane/bandwidth_reservation.go:165-223 | an admitted move leaves every booked edge within its bound and raises the load of no edge outside the new path |
| Admission.FitsIff | services/control-plane/bandwidth_reservation.go:225-233 | a flow is admitted on a link, and the link kept for it by pruning, if and only if all traffic the contracts allow from any source PoP then booked on it to any sink PoP of the same label stays within 95% of its bandwidth |
| Admission.MoveRunsStaySafe | services/control-plane/bandwidth_reservation.go:165-233 | after every sequence of `Move` calls, admitted or refused, every booked edge is loaded at most to 95% of its capacity |
| Admission.PruningKeepsBookedEdges | services/control-plane/bandwidth_reservation.go:225-268 | a reservation already booked on an edge of the graph never loses that edge to pruning |
| Cspf.Nearest | services/control-plane/cspf.go:180-191 | the unsettled node of smallest finite distance, or none if all are at infinity |
| Cspf.RelaxAll | services/control-plane/cspf.go:197-209 | relaxing the edges of the settled node, in any order, restores the search invariant |
| Cspf.WalkNotCheaper | services/control-plane/cspf.go:148-224 | under the search invariant no walk at all undercuts the distances found |
| Cspf.Reconstruct | services/control-plane/cspf.go:226-256 | following predecessors ends, because distances strictly fall, and yields a connected path without a repeated node whose cost is the distance |
| Cspf.ComputePath | services/control-plane/cspf.go:148-224 | a simple path that no walk from source to destination undercuts; `NoPath` exactly when every walk costs infinity, `UnknownNode` exactly for an end outside the graph |
| Pricing.EdgeCost | services/control-plane/pce_graph.go:95-116 | no cost if and only if no physical link has one; otherwise non-negative in every dimension |
| Pricing.EdgeCostIsWorst | services/control-plane/pce_graph.go:95-116 | in every dimension that any physical link has, the edge costs what the worst of them costs, and it has no other dimension |
| Pricing.WeightedCost | services/control-plane/cspf.go:107-123 | an unmeasured edge costs infinity and any other at least one |
| Pricing.WeightedCostIsSum | services/control-plane/cspf.go:107-123 | a measured edge costs one plus the sum of weight times measurement over the dimensions both weighted and measured, in any order, and infinity if and only if one of them is infinite |
| Pricing.EdgeWeightsWeigh | services/control-plane/cspf.go:107-123 | positive weights over non-negative measurements give edge weights of at least one or infinity, as the search requires |
| Pricing.PricedOutIffFull | services/control-plane/pce.go:270-323 | a link within its bookable bandwidth costs infinity if and only if it is exactly full |
| Pricing.ReservedCostMonotone | services/control-plane/pce.go:311-323 | reserving more never makes a link cheaper |
| Pricing.IdleIffFree | services/control-plane/pce.go:311-323 | a link costs zero if and only if nothing is reserved on it, and any reservation below the bookable bandwidth costs more than zero; the comment beside the code gives an idle edge a fifth |
| Pricing.ReservedCostIs | services/control-plane/pce.go:270-323 | below the bookable bandwidth the cost is the load over four times what is left |
| Pricing.ReferenceCostsOne | services/control-plane/pce.go:311-323 | a link loaded to 80% of its bookable bandwidth costs one |
| PceRuns.ServedKeepsInv | services/control-plane/pce.go:96-252 | serving one demand, through every branch, keeps: reservations agree with contracts, the ledger indexes the path store, stored paths are simple chains of links, no link is overbooked |
| PceRuns.RunKeepsInv | services/control-plane/pce.go:61-268 | the same in every state of every run of ticks |
| PceRuns.RegistryMirrorsPaths | services/control-plane/pce.go:132-251 | after any run a flow is booked on an edge if and only if its stored path uses that edge, and no other edge has an entry |
| PceRuns.ContractedTrafficFits | services/control-plane/pce.go:96-252 | after any run, any traffic within all contracts, routed on the stored paths, loads each link to at most 95% of its bandwidth |
| PceRuns.ServedExactly | services/control-plane/pce.go:132-251 | exactly when a demand gets the path found for it (first placement, same route, broken, or dear and rested enough), what stays stored otherwise, and that nothing changes without a path |
| PceRuns.TickReroutes | services/control-plane/pce.go:167-251 | a stored path changes only if its rescored cost is infinite, or is at least 1.1 times the new cost and the last reroute is at least the hold-down ago; the change is recorded at the tick's time and nothing else is |
| PceRuns.ReroutesAreSpaced | services/control-plane/pce.go:167-251 | over every run with non-decreasing tick times, two reroutes of one flow are a hold-down apart unless the second left a path of infinite cost |
| PceRuns.PlacedFlowsAreNotPruned | services/control-plane/pce.go:103-117 | wherever the invariant holds, a placed flow whose links are up keeps its whole path in the pruned graph, so the search fails for it only if live costs make that path infinite |
| PceRuns.FoundPathsAreAdmitted | services/control-plane/pce.go:103-165 | a path found in the pruned graph always fits, so `Move` cannot fail inside a tick and the demand ends up with a stored path |
| PceRuns.RunMeets | services/control-plane/pce.go:96-252 | between any two demands of any tick of any run the invariant holds, and the next demand's key still has the path it had before the tick |
| PceRuns.RunsServeExactly | services/control-plane/pce.go:96-252 | so over every run: no placed flow whose links are up is pruned, every path found is admitted, and it replaces the stored one exactly by the placement, hysteresis and hold-down rules |
| PceRuns.BulkBrokenIff | services/control-plane/pce.go:295-323 | a default-class path counts as broken if and only if one of its links is down, without a cost, or was exactly full at the start of the tick |
| Objectives.EdgeWeightIsPrice | services/control-plane/cspf.go:107-123 | the weight of an edge is one plus the sum of the objective's weights times the link's measurements, and infinite if and only if the link is unmeasured or a weighted dimension is infinite |
| Objectives.ShortestIsCheapest | services/control-plane/cspf.go:148-224 | the path a search returns costs the sum of its links' prices and no passable walk is cheaper; it finds none only if no walk is passable |
| Objectives.ServedFindsCheapest | services/control-plane/pce.go:103-117 | whenever a demand is served, the path found is the cheapest walk of the pruned graph under the demand's own objective and the live costs |
| Objectives.RunsFindCheapest | services/control-plane/pce.go:96-117 | the same for every demand of every tick of every run |
| Objectives.ObservedIs | services/control-plane/cost_graph.go:90-100 | a new measurement wins in every dimension but the reserved-bandwidth one, which measurements never touch, and adds no link |
| Objectives.FoundLinks | services/control-plane/cspf.go:226-256 | the links of a path found are those of its edges, in order |
| Objectives.ScoreIsBill | services/control-plane/pce.go:360-372 | the score of a stored path is the sum of its links' prices on the snapshot, infinite if and only if a link has left the graph or is unusable |
| Objectives.FoundPathRescored | services/control-plane/pce.go:360-372 | a path just found, rescored on the costs it was found with, costs what the search said |
| Objectives.StoredCost | services/control-plane/pce.go:132-251 | the cost stored with a path is the search's if the path found is taken, and otherwise the kept path's price on the snapshot |
| PceEngine.UpdateLinkStates | services/control-plane/pce.go:327-358 | a probed link is up if and only if it was heard within 15 seconds; one never probed keeps its state |
| PceEngine.RescorePath | services/control-plane/pce.go:360-372 | the path's cost under the snapshot, or infinity if an edge has left the graph |
| PceEngine.PriceLinks | services/control-plane/pce.go:270-293 | every link of the graph, in any order, is priced by the load of its edge, and no other |
| PceEngine.PathComputationElement.UpdateStaticCosts | services/control-plane/pce.go:270-293 | the costs become the priced ones and nothing else changes |
| PceEngine.PathComputationElement.Settle | services/control-plane/pce.go:132-251 | after a found path the state is the one the placement, equality, hysteresis and hold-down branches prescribe |
| PceEngine.PathComputationElement.ServeDemand | services/control-plane/pce.go:97-251 | one turn of the demand loop is one step of the tick relation, and the path it finds is the cheapest of the pruned graph under the demand's objective and the live costs |
| PceEngine.PathComputationElement.BeginTick | services/control-plane/pce.go:75-94 | link states, graph, prices and snapshot at the start of a tick, with the stored paths unchanged |
| PceEngine.PathComputationElement.RunTick | services/control-plane/pce.go:69-266 | one tick of the loop is one step of the run relation and keeps the invariant |
| Demands.Aggregate | services/control-plane/pce_demand.go:41-60 | the table holds, for every PoP and label, what the tenant's sites there reserve together |
| Demands.MbpsIsSum | services/control-plane/pce_demand.go:41-60 | what a PoP reserves for a label is the sum of the shares of all sites attached there |
| Demands.TenantDemands | services/control-plane/pce_demand.go:62-90 | exactly one demand per ordered pair of distinct PoPs and known class with positive bandwidth at both ends, none twice |
| Demands.BuildDemands | services/control-plane/pce_demand.go:38-114 | exactly the wanted demands of all tenants, none twice; for any two in the list, bulk never comes before a named class, then the tier index never rises, then the class index never rises, then tenant, from and to ascend |
| Demands.StringLessIff | services/control-plane/pce_demand.go:107-110 | names are compared at their first difference, and a proper prefix comes first |
| Demands.NoTies | services/control-plane/pce_demand.go:95-111 | the comparator never ties two different demands |
| Demands.OrderIsDetermined | services/control-plane/pce_demand.go:95-111 | any two sorted lists of the same demands are equal, so map order and sort stability do not matter |
| TenantRepository.ParseClassMatch | services/control-plane/tenant_repository.go:398-424 | accepted if and only if the codepoints are non-empty, distinct, in 1..63 and not matched before |
| TenantRepository.ParseTrafficClasses | services/control-plane/tenant_repository.go:342-396 | accepted if and only if every class is well formed and no two share a name, label, index or codepoint; then the maps by label and by name hold exactly the default class and the listed ones, indexes rank them, and different names have different labels |
| TenantRepository.ResolveSiteClasses | services/control-plane/tenant_repository.go:462-491 | refused if and only if a share is bad or the shares exceed the reservation; otherwise every named class has its share, the default class exactly the remainder if that exceeds the tolerance, no other class any, and the positive shares add up to the reservation within the tolerance |
| TenantRepository.ContractNonNegative | services/control-plane/pce_demand.go:41-60 | contracts aggregated from non-negative site shares are non-negative |
| TenantRepository.BuiltDemandsAreValid | services/control-plane/pce_demand.go:17-36 | the demands of a tick have distinct keys, reservations that state the contracts, and the objective of their own class or, for bulk, reserved bandwidth alone |
| Kernel.ObjectsAre | libs/dataplane/reconciler_plan.go:36-90 | the objects the getters list are exactly those the kernel holds, kind by kind |
| Dataplane.RemoveKeepsOwned | libs/dataplane/dataplane_netlink.go:54-141 | no removal breaks unique indexes, one vrf per table, catch-alls only on the loopback, or unique rule identifiers |
| Dataplane.AddKeepsOwned | libs/dataplane/dataplane_netlink.go:205-270 | no accepted insertion does either |
| Dataplane.Dataplane.Remove | libs/dataplane/reconciler_apply.go:25-64 | a removal that succeeds has exactly its kernel effect, including routes and segments lost with a link; one that fails changes nothing, or has taken only a vrf's catch-all; one counted as refused was not allowed by the kernel |
| Dataplane.Dataplane.Add | libs/dataplane/reconciler_apply.go:76-124 | an insertion that succeeds met its conditions and has exactly its kernel effect; one that fails leaves nothing, a vrf with or without its catch-all, or a tunnel with or without its master; one counted as refused did not meet its conditions |
| Dataplane.Dataplane.UpsertVrf | libs/dataplane/dataplane_netlink.go:205-254 | succeeds only for a free or matching name and table, and then also installs the catch-all |
| Dataplane.Dataplane.InsertXfrm | libs/dataplane/dataplane_netlink.go:544-584 | succeeds only for a new name, an existing parent and a vrf master; refused only if one of these is missing; what a failure after creation leaves is the device without a master, or under it but down |
| Dataplane.Dataplane.InsertRoute | libs/dataplane/dataplane_netlink.go:472-512 | in a vrf table only a device enslaved to that vrf is accepted |
| Dataplane.Dataplane.UpsertSid | libs/dataplane/dataplane_netlink.go:609-641 | succeeds only if a vrf owns the table |
| Stages.RoutesRemoved | libs/dataplane/reconciler_apply.go:16-31 | a list of route removals takes the ordinary route of a destination first and the catch-all only with a second removal |
| Stages.AllRemoved | libs/dataplane/reconciler_apply.go:16-67 | exactly what the seven ordered removal loops leave: a route or segment is gone if and only if it was named, ran over a deleted link or was the catch-all of a deleted vrf; a tunnel is unchanged unless it loses a deleted master |
| Stages.AllAdded | libs/dataplane/reconciler_apply.go:69-127 | what the seven ordered insertion loops add up to when no two insertions want one kernel key |
| Convergence.FirstRound | libs/dataplane/reconciler.go:77-113 | one successful pass from any owned kernel leaves only lost segments and routes and catch-alls of fresh vrfs to be done, and leaves no table with both a catch-all and a default route if and only if the pass trades no default |
| Convergence.SecondRound | libs/dataplane/reconciler.go:77-113 | if so, the next successful pass leaves exactly the desired identifiers |
| Convergence.TwoRoundsIff | libs/dataplane/reconciler.go:77-113 | two successful passes converge if and only if no wanted vrf is missing at the start whose table wants a `::/0` that is missing too, or is there with no catch-all beside it and its device kept |
| Convergence.ThreeRoundsConverge | libs/dataplane/reconciler.go:64-113 | three successful passes converge from any owned kernel, whatever default routes are wanted |
| Convergence.FreshNodeTradesIff | libs/dataplane/dataplane_netlink.go:242-270 | on a node without links and routes of its own a default is traded if and only if a vrf table wants one |
| Convergence.AppliedKeepsOwned | libs/dataplane/reconciler_apply.go:10-130 | a successful pass keeps unique indexes, one vrf per table, catch-alls only on the loopback and unique rule identifiers |
| Convergence.ConvergedHasNoCatchAll | libs/dataplane/dataplane_netlink.go:242-270 | a converged kernel holds no vrf catch-all: it is listed as owned, never desired, and removed again |
| Convergence.ClashNeverConverges | libs/dataplane/resource_route.go:24-29 | no kernel whose vrfs have their desired tables satisfies a desired set in which two resources want one kernel key, a vrf table included, or a segment route has no segments |
| Convergence.DefaultTradedAway | libs/dataplane/dataplane_netlink.go:126-141 | with a catch-all and a desired `::/0` in one table, the removal meant for the catch-all takes the desired route |
| Render.RenderClasses | libs/dataplane/reconciler_render.go:98-111 | refused if and only if a codepoint is 255 or more; otherwise exactly the wanted classifications |
| Render.RenderPrefix | libs/dataplane/reconciler_render.go:168-190 | a segment route is installed if and only if its table is free or recorded for the path's tenant, with the path's segments read from the last to the first; a free table is then recorded, and nothing else changes |
| Render.RenderPe | libs/dataplane/reconciler_render.go:91-209 | refused if and only if a codepoint is too big; otherwise, for every map order, exactly what the intent asks for, segment routes of a table from the one tenant recorded for it, which is that of the first path if every tenant has a table of its own, and with that path's segments from the last to the first |
| RenderFacts.TunnelNameInjective | libs/dataplane/reconciler_render.go:137 | tunnel names differ for different tenants or interface numbers |
| RenderFacts.ReferencesAreClosed | libs/dataplane/reconciler_render.go:113-158 | the device and vrf of every route, the master of every tunnel and the vrf of every segment and rule are rendered too |
| RenderFacts.RenderingsAgree | libs/dataplane/reconciler_render.go:91-209 | if no two tenants hash to one vrf table, any two renderings of the intent have the same identifiers |
| RenderFacts.RenderedGranted | libs/dataplane/reconciler_render.go:160-190 | then every segment route is that of a path of the tenant that the first path of its color names, and its segments are the path's, place by place from the last to the first |
| RenderFacts.GrantedRendered | libs/dataplane/reconciler_render.go:160-190 | and for all of those |
| RenderFacts.OwnPathsGranted | libs/dataplane/reconciler_render.go:160-190 | if every path names the tenant it belongs to, no path is denied |
| RenderFacts.DistinctIffAgree | libs/dataplane/reconciler_render.go:91-209 | for every intent: a rendering has no kernel clash if and only if no two tenants share a vrf table, portals of one table and prefix share a tunnel, granted paths of one table and prefix share segments, and a codepoint has one color |
| RenderFacts.SegmentsIff | libs/dataplane/reconciler_render.go:160-190 | every rendered segment route has segments if and only if every granted path that installs a prefix has |
| RenderFacts.NoDefaultIff | libs/dataplane/reconciler_render.go:149-158 | no vrf table wants a default route if and only if no site prefix is `::/0` |
| RenderFacts.CpeRenderingIsFine | libs/dataplane/reconciler_render.go:18-58 | what a CPE intent renders to never clashes and wants no default in a vrf table |
| RenderFacts.CpeSteersSite | libs/dataplane/reconciler_render.go:18-58 | refused if and only if there is a tunnel but no site; a kernel converged on any other CPE intent holds nothing before the tunnel has an identifier, and afterwards has one rule that sends exactly the site prefix to a table whose one route leaves through the one tunnel of that identifier |
| Steering.TableParts | libs/dataplane/reconciler_render.go:60-89 | the table of a color is 300 plus the tenant's hash modulo the rest of 24 bits, with the color above these bits |
| Steering.PeSteersPath | libs/dataplane/reconciler_render.go:98-209 | a converged PE marks a class's codepoints with its color, has a rule for every path in force, and every rule of the tenant's vrf for that color looks up a table that holds the path's prefixes with segments that read as the path's, last first |
| Steering.RunKeepsTidy | libs/dataplane/reconciler_render.go:197-206 | in every state that clean passes over any intents reach from a node whose rules are so, as one without rules is, each rule is some tenant's rule for its mark and looks up that tenant's table of that color |
| Steering.RuleArrivesIff | libs/dataplane/resource_rule.go:17-27 | after a pass the tenant's vrf has its rule if and only if no rule of another interface already had its identifier, which omits the interface |
| Steering.FormerTenantBlocks | libs/dataplane/resource_rule.go:17-27 | so when a tenant takes over the table of a former one in the same color, its vrf gets no rule for that color |
| Steering.SegmentsArriveIff | libs/dataplane/resource_sr_route.go:42-58 | after a pass a prefix has exactly its path's segments, last first, if and only if the table did not already hold another list that joins to the same text |
| Steering.TextIsAmbiguous | libs/dataplane/resource_sr_route.go:42-58 | two different segment lists do join to the same text |
| Steering.FreshNodeSteers | libs/dataplane/reconciler.go:77-113 | on a node without rules and segment routes one clean pass gives each codepoint its color, the tenant's vrf its rule, and the rule's table exactly the path's segments, last first |
| Steering.PeDeliversSite | libs/dataplane/reconciler_render.go:113-158 | a converged PE whose links are lawful delivers each site's prefix through the tunnel of the site's interface number, in the table of the tenant's vrf, to which the tunnel is enslaved |
| Steering.SegmentDecapsulates | libs/dataplane/reconciler_render.go:124-134 | a tenant's own segment, once inserted, decapsulates into the table of that tenant's vrf |
| Referents.LinksPresent | libs/dataplane/reconciler_apply.go:69-94 | whatever the kernel held, every wanted vrf is there by name after the vrf loop and every wanted tunnel after the tunnel loop |
| Referents.InsertsFindReferents | libs/dataplane/reconciler_apply.go:69-127 | when the link loops succeeded and links already there are as desired, every tunnel finds its master, every route a tunnel under the vrf that owns its table, every segment a vrf; of the desired links only the names must differ |
| Referents.KeptLink | libs/dataplane/resource_xfrm.go:14-19 | a wanted link that is there goes through the link loops of every pass unchanged, except that a tunnel loses a master that is deleted |
| Referents.MasterStays | libs/dataplane/resource_xfrm.go:14-19 | so a wanted tunnel is under a wanted vrf after a pass if and only if it was before: no retry moves it |
| Referents.RouteAcceptedIff | libs/dataplane/dataplane_netlink.go:494-499 | a missing route over a tunnel that is there, into the table of a vrf that is there, is accepted if and only if the tunnel is already under that vrf |
| Referents.WrongMasterBlocksRoutes | libs/dataplane/dataplane_netlink.go:472-512 | so a wanted tunnel under another vrf or under none blocks its missing routes in every pass |
| Acceptance.AllRemovalsAccepted | libs/dataplane/reconciler_apply.go:16-67 | no removal of a pass is refused |
| Acceptance.AllInsertsAccepted | libs/dataplane/reconciler_apply.go:69-127 | no insertion of a pass is refused if the desired set is closed and free of clashes, links already there are as desired, their names are not taken by others, and parents and the segment device exist |
| Lawfulness.LawfulIsFaithful | libs/dataplane/reconciler_render.go:113-147 | in a kernel where tables and masters are the functions of names that rendering uses, every link of every rendering is as desired |
| Lawfulness.RoundKeepsLawful | libs/dataplane/reconciler_apply.go:10-130 | a successful pass keeps a kernel so |
| Lawfulness.RunKeepsLawful | libs/dataplane/reconciler.go:63-116 | and so does every run of successful passes, of whatever PE intents; a node without links starts so |
| Lawfulness.RenderedIntentsFindReferents | libs/dataplane/reconciler_apply.go:69-127 | for every PE intent and every such kernel every insertion finds its referents, whether or not portals, paths and classes agree |
| Lawfulness.SharedTableNeverApplied | libs/dataplane/dataplane_netlink.go:205-254 | if two tenants of an intent hash to one vrf table, no pass over it ever succeeds in full |
| Lawfulness.AttemptKeepsTables | libs/dataplane/dataplane_netlink.go:205-254 | tables stay lawful through any pass, however many of its calls fail |
| Reconciler.RenderFib | libs/dataplane/reconciler_render.go:211-312 | the current map holds one object under each identifier the kernel has, and nothing else |
| Reconciler.KeyDifference | libs/dataplane/reconciler_diff.go:10-18 | exactly the keys of the first map missing from the second, once each |
| Reconciler.Diff | libs/dataplane/reconciler_diff.go:20-41 | removals are exactly the undesired objects and additions exactly the missing desired ones, once each; both lists are empty if and only if the kernel has converged |
| Reconciler.Apply | libs/dataplane/reconciler_apply.go:10-130 | fails only before its first change; otherwise presses on, keeps the kernel well formed, has applied the whole diff in order if no call failed or was refused, and is refused nothing the kernel's state allows |
| Reconciler.PassProgress | libs/dataplane/reconciler.go:77-113 | each clean pass over a realizable intent makes progress, whatever map order each pass renders in |
| Reconciler.PassIsAccepted | libs/dataplane/reconciler.go:77-113 | on a suited node no call of a pass over a realizable intent is refused |
| Reconciler.Reconciler.MakePlan | libs/dataplane/reconciler_plan.go:12-112 | refuses the wrong node type, then an intent as stale if and only if its version is lower than the current one's, or its version is equal and its generation lower, as the fencing protocol compares them; a higher version is never stale; all before reading anything |
| Reconciler.Reconciler.Reconcile | libs/dataplane/reconciler.go:63-116 | the intent becomes current only if the kernel holds exactly what it renders to; done never lowers the stamp; refused intents leave the kernel alone; if no call fails or is refused, a realizable intent is in the kernel within three passes and is reported done if and only if no default route was traded; on a suited node only failures from outside count, since no call is refused |
| Reconciler.AgentIsReconciler | libs/dataplane/reconciler_plan.go:18-34 | the reconciler finds stale exactly what the fencing protocol's agent refuses, and a delivery leaves it with the stamp the protocol's step leaves the agent with |
| Reconciler.ReconcilerNeverGoesBack | libs/dataplane/reconciler_plan.go:18-34 | so over every run of the protocol, until the node restarts, the reconciler's current intent never becomes older |
| Reconciler.HeldOnlyIfRealizable | libs/dataplane/reconciler.go:90-105 | a kernel with lawful tables holds an intent only if it is realizable |
| Reconciler.HeldTradesNothing | libs/dataplane/reconciler.go:90-105 | an intent the kernel already holds has nothing to trade, so its next delivery is done at once |
| Fencing.RunKeepsInv | services/control-plane/service_registry_tx.go:50-119 | over every interleaving of commits, failed or half-failed writes, publishes, crashes and restarts, rows cover every published version and memory is never behind the rows |
| Fencing.StampsFollowCommits | services/control-plane/service_registry_tx.go:80-116 | of two published intents for a node the later commit has the greater (version, generation), and no two commits share one |
| Fencing.RestartFences | services/control-plane/service_registry.go:73-103 | every intent published after a restart exceeds every one published before it |
| Fencing.AgentNeverGoesBack | libs/dataplane/reconciler_plan.go:18-34 | under reordered, repeated and dropped delivery an agent's converged intent never returns to an earlier commit until the agent itself restarts |
| Fencing.ReplaysAreHarmless | libs/dataplane/reconciler_plan.go:22-24 | a published message other than the current one is refused if and only if its commit is earlier |
| Fencing.CommitRaisesIff | services/control-plane/service_registry_tx.go:81 | a commit raises the stamp if and only if the 32-bit generation is not at its end |
| Fencing.ReloadRaisesIff | services/control-plane/service_registry.go:92-99 | a restart raises the stamp if and only if the 32-bit version is not at its end |
| Fencing.WrappedCommitIsRefused | services/control-plane/service_registry_tx.go:81 | past the end of the word a published commit is refused by an agent that holds its predecessor |
| ServiceRegistry.ServiceRegistry.Mutate | services/control-plane/service_registry_tx.go:72-78 | all staged mutations are applied in order, failures included, and success means none failed |
| ServiceRegistry.MutatedInOrder | services/control-plane/service_registry_tx.go:72-78 | each staged mutation sees what the one staged before it left, also where that one failed |
| ServiceRegistry.CommittedStamp | services/control-plane/service_registry_tx.go:58-81 | a transaction keeps the version and raises the generation by one, in 32 bits; a node not known before gets version 1 and generation 2 if a PE, 1 if a CPE |
| ServiceRegistry.ServiceRegistry.Commit | services/control-plane/service_registry_tx.go:50-119 | each touched entry is bumped exactly once, no other entry changes, exactly the entries whose row was written and whose publish worked are published, what is reported as an error, and that all of it is a run of the protocol |
| ServiceRegistry.ServiceRegistry.Persist | services/control-plane/service_registry_tx.go:100-116 | the message is published if and only if the row was written and the publish worked, and the row changes even if the write's success goes unheard |
| ServiceRegistry.ServiceRegistry.UpsertCpe | services/control-plane/service_registry_cpe.go:29-57 | the content is replaced and the generation raised by one in 32 bits, or a new entry starts at version 1 and generation 1; success if and only if both calls worked, and then the published message carries the new entry |
| ServiceRegistry.ServiceRegistry.GreetPortal | services/control-plane/controller_tunnels.go:64-87 | an unknown portal gets an entry in memory only |
| ServiceRegistry.ServiceRegistry.LoadPreviousState | services/control-plane/service_registry.go:70-103 | memory becomes one empty entry per row, one version up at generation 0 |
| SidAllocator.Permute | services/control-plane/hash.go:18-22 | function numbers lie in 0xf001..0xffff |
| SidAllocator.LcgIsInjective | services/control-plane/hash.go:8-12 | the congruence the parameters were chosen for does not repeat within a period |
| SidAllocator.PermuteIsLcgIff | services/control-plane/hash.go:18-22 | the code computes that congruence if and only if the cursor is below 48 modulo 4095 |
| SidAllocator.PermuteRepeats | services/control-plane/hash.go:18-22 | two cursors of one period share a number |
| SidAllocator.WithFunction | services/control-plane/service_registry_sid.go:17-24 | only the hextet at bit 48 changes, and it reads back as the function number |
| SidAllocator.ProbeIsFirstFree | services/control-plane/service_registry_sid.go:36-45 | the collision loop stops at the first free draw within its number and finds none only if all are taken |
| SidAllocator.GrantIs | services/control-plane/service_registry_sid.go:27-82 | a new key is given its locator with the function number of the first of five successive cursor values whose address is not taken; memory and rows then hold it, and both cursors stand one further, in 16 bits |
| SidAllocator.MirrorsKept | services/control-plane/service_registry_sid.go:47-77 | memory holds exactly the rows as long as no committed transaction goes unheard |
| SidAllocator.RequestFailsIff | services/control-plane/service_registry_sid.go:27-82 | in any state a request fails if and only if the key is new and the transaction fails, the next five draws are all taken, or the database holds the first free one |
| SidAllocator.MirrorsNeverObject | services/control-plane/service_registry_sid.go:27-82 | the last never happens while memory holds exactly the rows |
| SidAllocator.UnheardSticks | services/control-plane/service_registry_sid.go:47-77 | a commit that goes unheard leaves the next draw of its locator free in memory and taken in the database |
| SidAllocator.StuckRefuses | services/control-plane/service_registry_sid.go:27-82 | then every new key of that locator is refused, whatever the database does, and the cursor does not move |
| SidAllocator.StuckRun | services/control-plane/service_registry_sid.go:27-82 | for any number of such requests; a restart ends it |
| SidAllocator.SidsAreStableAndUnique | services/control-plane/service_registry_sid.go:27-82 | over every run with failed and unheard transactions and restarts, two answers are equal if and only if their keys are, inside their locator and in the function range |
| SidAllocator.Allocator.GetOrGenerate | services/control-plane/service_registry_sid.go:27-82 | the retry loop is the allocator's step: known keys answered from memory, at most five collision checks, database before memory |
| SidAllocator.Allocator.Load | services/control-plane/service_registry.go:105-115 | both maps are rebuilt from the rows |
| Framing.ScanIsParseThenFold | libs/stamp/packet.go:126-173 | scanning accepts if and only if the whole region parses into elements and each is accepted in turn |
| Framing.IgnoredElement | libs/stamp/packet.go:148-169 | an element the handler ignores may stand at any element boundary |
| Stamp.ExtensionsBack | libs/stamp/packet.go:38-60 | decoding encoded extensions gives them back, an empty set as none, if and only if the key is UTF-8, and fails otherwise |
| Stamp.UnknownInserted | libs/stamp/packet.go:126-173 | inserting an element of unknown type at a boundary changes nothing if and only if the region was not empty |
| Stamp.UnknownInReturnPath | libs/stamp/tlv_return_path.go:71-105 | the same for unknown elements inside a return path |
| Stamp.UnknownInContainer | libs/stamp/tlv_maeto_container.go:81-115 | the same for unknown elements inside a container |
| Stamp.Canonical | libs/stamp/packet.go:126-173 | every region that decodes can be encoded again and then means the same |
| StampLayout.SenderLayout | libs/stamp/packet.go:66-90 | every field of a sender packet stands at its octet, most significant first: sequence at 0, timestamp at 4, error estimate at 12, session at 14, zeros from 16, extensions from 44 |
| StampLayout.ReflectorLayout | libs/stamp/packet.go:196-233 | the same for a reflector packet, with the receive timestamp at 16, the sender's sequence at 24, timestamp at 28, error estimate at 36 and hop limit at 40, and zeros between |
| StampLayout.ReturnPathLayout | libs/stamp/tlv_return_path.go:23-69 | the exact octets of a return path, with and without a control code |
| StampLayout.ContainerLayout | libs/stamp/tlv_maeto_container.go:22-79 | the exact octets of a container with a key: types 250 and 1, two lengths, most significant octet first |
| StampLayout.Utf8Iff | libs/stamp/tlv_maeto_container.go:117-123 | a key passes if and only if its octets encode some sequence of Unicode scalar values by the table of RFC 3629 |
| StampCodec.SenderBack | libs/stamp/packet.go:66-122 | round trip of every encodable sender packet, exact up to the empty extension set |
| StampCodec.ReflectorBack | libs/stamp/packet.go:196-278 | round trip of every encodable reflector packet |
| StampCodec.SenderForwards | libs/stamp/packet.go:94-122 | whatever decodes as a sender packet can be encoded and is then read the same |
| StampCodec.EncodeReturnPath | libs/stamp/tlv_return_path.go:23-41 | append-then-patch produces the framed element |
| StampCodec.EncodeContainer | libs/stamp/tlv_maeto_container.go:22-47 | refused if and only if the key with its header exceeds 16 bits of length; otherwise the framed element |
| StampCodec.EncodeExtensions | libs/stamp/packet.go:38-60 | refused if and only if the container does not fit; otherwise the two elements in order |
| StampCodec.EncodeSender | libs/stamp/packet.go:66-90 | refused if and only if authentication is asked for or the extensions do not fit; otherwise the 44-octet base and the region |
| StampCodec.EncodeReflector | libs/stamp/packet.go:196-233 | the 44-octet base with every field in place, and the region |
| StampCodec.DecodeReturnPath | libs/stamp/tlv_return_path.go:71-117 | on any octets the cursor loop ends within bounds and equals the scan |
| StampCodec.DecodeContainer | libs/stamp/tlv_maeto_container.go:81-123 | likewise |
| StampCodec.DecodeExtensions | libs/stamp/packet.go:126-173 | likewise, with the empty region read as none |
| StampCodec.DecodeSender | libs/stamp/packet.go:94-122 | short packets and bad regions are refused, all others give every field |
| StampCodec.DecodeReflector | libs/stamp/packet.go:237-278 | likewise for reflector packets |
| Ntp.NothingOverflows | libs/stamp/timestamp.go:55-74 | neither product leaves 64 bits and the fraction fits 32 |
| Ntp.ToNtpMeans | libs/stamp/timestamp.go:63-74 | in era 0 the seconds are those since 1900, and the fraction is the nanoseconds in 2^32nds of a second, rounded down |
| Ntp.OrderIsKept | libs/stamp/timestamp.go:63-74 | between any two instants of era 0 order is kept in both directions and timestamps are equal only for equal instants |
| Ntp.RoundTrip | libs/stamp/timestamp.go:55-74 | the second is restored if and only if the instant is in era 0; the nanoseconds are restored if and only if divisible by 1953125 and are one short otherwise |
| Ewma.WeightsSumToOne | services/control-plane/ewma.go:52-73 | the weights implied by the recurrence add up to one |
| Ewma.ObserveIsBatch | services/control-plane/ewma.go:67-69 | the recurrences give the weighted mean of all samples and the weighted mean of squared deviations from that mean |
| Ewma.VarianceNonNegative | services/control-plane/ewma.go:54-73 | the variance is never negative |
| Ewma.MeanWithin | services/control-plane/ewma.go:54-73 | the mean stays within any bounds on the samples |
| Ewma.Ewma.constructor | services/control-plane/ewma.go:40-50 | unusable settings are replaced by the defaults |
| Ewma.Ewma.Observe | services/control-plane/ewma.go:54-73 | after any samples the fields are the batch mean and variance of them |
| LossAccounting.LossIsConserved | services/control-plane/telemetry_collector_handle_stamp.go:85-104 | within an epoch, whatever arrives late or twice, zeros are the numbers that were newest on arrival, ones the numbers jumped over, and together they cover first to newest except losses beyond 200 per jump |
| LossAccounting.ObservedAllIff | services/control-plane/telemetry_collector_handle_stamp.go:85-104 | observations equal newest minus first plus one if and only if no jump loses more than 200 |
| LossAccounting.EpochsAddUp | services/control-plane/telemetry_collector_handle_stamp.go:97-100 | a later sender epoch adds its own account to what was observed before |
| LossAccounting.LossIsAProbability | services/control-plane/telemetry_collector_handle_stamp.go:85-104 | over any arrivals the loss average stays within 0 and 1 |
| LossAccounting.EdgeTelemetry.Account | services/control-plane/telemetry_collector_handle_stamp.go:85-101 | the switch is one step of the accounting |
| LossAccounting.EdgeTelemetry.Handle | services/control-plane/telemetry_collector_handle_stamp.go:41-126 | sender echoes have no effect, incomplete or negative results are refused without effect, all others observe one latency and account for their number even if storing the sample then fails and an error is returned |
| LossAccounting.DurationIs | services/control-plane/telemetry_collector_handle_stamp.go:51-57 | the observed latency is in milliseconds and loses less than a microsecond |
| Faults.Connected | services/maeto-sim/faults.py:104-121 | true if and only if every PoP reaches every other over links that are not down |
| Faults.FewerDown | services/maeto-sim/faults.py:104-121 | bringing links up never disconnects anyone |
| Sim.LimitsHold | services/maeto-sim/main.py:89-127 | over every interleaving of commands, clears, expiries, story steps, failures and resets, at most four manual faults and two manual cuts are on record |
| Sim.RecordStaysConnected | services/maeto-sim/faults.py:124-139 | from a connected lab, runs without story cuts keep every PoP connected as far as the record goes, failures or not |
| Sim.RecordIsTrueIff | services/maeto-sim/main.py:77-120 | a step keeps the record true to the fabric if and only if no failed call leaves an unrecorded link down |
| Sim.FabricStaysConnected | services/maeto-sim/main.py:89-127 | without story cuts and such leaks, no PoP is ever really cut off |
| Sim.LeakDisconnects | services/maeto-sim/main.py:115-120 | on a ring of three, one failed revert followed by one permitted cut isolates a PoP |
| Simulator.Simulator.Revert | services/maeto-sim/main.py:77-87 | a cut's revert brings the link up unless it fails; an impairment's never moves a link |
| Simulator.Simulator.Apply | services/maeto-sim/main.py:89-113 | the previous fault is off the record first; the new one is on it only if every call worked; a failed cut is rolled back |
| Simulator.Simulator.Clear | services/maeto-sim/main.py:115-120 | the fault leaves the record whether or not its revert works |
| Simulator.Simulator.ClearSource | services/maeto-sim/main.py:122-127 | exactly the faults of that source leave the record |
| Simulator.Simulator.Reap | services/maeto-sim/main.py:256-261 | exactly the expired faults leave the record |
| Simulator.Simulator.Reset | services/maeto-sim/main.py:129-145 | the record is empty at once, and every link of the lab is up unless a call failed |
| Simulator.Simulator.CheckManual | services/maeto-sim/faults.py:124-139 | allows a fault if and only if the limits and, for a cut, connectivity permit it |
| Simulator.Simulator.Command | services/maeto-sim/main.py:206-230 | refused without effect exactly for an unknown link or past the limits; otherwise one step of the machine, and a success if and only if no shaping call failed |

## Left out

- Netlink, nftables, strongSwan, NATS, Postgres, sockets and the clock: represented by abstract state, by parameters, or by calls that may fail.
- Floating-point rounding: bandwidths, costs and averages are reals, infinity is a case of its own.
- FNV and SHA hashing: the tenant hash is an arbitrary function, so table collisions are possible in the model.
- Addresses and prefixes of the reconciler: compared by their canonical text, as the source's identifiers do.
- Bundled edges and `CompareTo`: no live path uses them; every edge of the graph is one link.
- Tie-breaking among equally cheap paths: the search may settle equal nodes and relax edges in any order.
- Whether the cost graph is ready, change reports and causes of reroutes: they decide whether a tick runs and what is logged.
- PceRuns.ContractedTrafficFits: the contracts, the topology and its bandwidths are constant during a run, because they are loaded at boot.
- Colors above 32 bits and case folding of objective names: colors are naturals and names are already folded.
- Tiers, site identities and prefix checks of the tenant database: shallow validation.
- Delayed flushing of classifications by nftables: removals take effect at once.
- Rule deletion by wildcard: a removed rule is the one named.
- Non-key resource fields: `Diff` compares identifiers, so convergence is about identifiers; `Lawfulness`, `Acceptance` and `Steering` say where tables, masters, parents, interfaces and segment lists matter.
- Reconciler.Reconciler.Reconcile: state reports and cancellation are not part of it.
- `Restore` and reset boots: republishing entries that were never written breaks the order the fence relies on, and a reset deletes allocations.
- Fencing.StampsFollowCommits: for runs in which no 32-bit counter passes its end; the two counter lemmas say exactly when a step raises the stamp.
- Fencing.RunKeepsInv: rows are keyed by node identifier alone, so one identifier is not used for both a PE and a CPE.
- Writes of one controller that reach the database after its successor has started: a restart drops everything in flight.
- SidAllocator.SidsAreStableAndUnique: a locator is identified by its address, as in the memory map; the database key also has its prefix length.
- Authenticated STAMP packets: encoding a sender packet with a key is refused, and the other three calls, which stop the program, are not modelled.
- `Stddev`, `lastSeen` and the logarithm in `NormalizeDelayJitterLoss`: a square root, a timestamp and a logarithm over the proved mean and variance.
- The maps from edges to telemetry: one edge at a time, since edges share nothing.
- Reloading the lab on reset, story scheduling, traffic scenarios and parsing of commands in maeto-sim.
- maeto-pane, snapshots, the probe supervisor, the topology collector, tfsim and the containerlab generator: presentation, plumbing or generation.
