# Kuryr-Kubernetes: the controller and the CNI daemon, verified

This project models the state machines with which Kuryr reconciles Kubernetes objects with Neutron
and Octavia, and proves what they keep. `dafny verify dfyconfig.toml` checks all of it.

| file | what it models |
|---|---|
| `Basics.dfy`, `Addresses.dfy` | options, list comprehensions; addresses and CIDR blocks as bit strings, with CIDR exclusion |
| `PortIndex.dfy` | the ordered index of one port pool: security-group tuple to list of ports |
| `PoolProtocol.dfy`, `PoolSize.dfy` | the pool driver as steps between I/O calls, any number of them interleaved; the size bound |
| `PoolConservation.dfy` | where each port of the driver is, and the steps that lose one |
| `PoolRuns.dfy` | runs of that driver from the empty state: a pod granted a port with the wrong groups, pools of the largest size |
| `PoolRemovals.dfy` | security-group removals with the lists they have read, next to all other steps of the driver |
| `VifPool.dfy` | the pool driver's methods on its three dictionaries, each run without interruption; the return pass for Neutron and for nested pools |
| `PoolRefinement.dfy` | those methods as runs of the driver |
| `LoadBalancer.dfy`, `LoadBalancerPass.dfy` | one `_sync_lbaas_members` pass over the status lists, any remote call allowed to fail |
| `NetworkPolicy.dfy`, `NetworkPolicyMeaning.dfy` | ingress policies translated to security group rules, and what policy and rules admit |
| `RuleDiff.dfy` | the rule phase of the KuryrNetworkPolicy handler, stopped after any remote step |
| `EventQueue.dfy`, `EventDrops.dfy` | the per-object event queue of `Async` as interleaved steps; when its worker ends and what is dropped then |
| `CniRegistry.dfy` | the CNI daemon's shared registry entry, one step per locked section |
| `PortLifecycle.dfy`, `PortCompletion.dfy` | pods, KuryrPorts, their finalizers and VIFs, with users and a controller that may stop; what the handlers get done undisturbed |
| `Finalizers.dfy` | finalizer updates against a versioned object that others write to |
| `ListenerAcl.dfy` | the access list of a listener from the pods' security groups |
| `VlanReservation.dfy` | bulk subport creation with VLAN ids, among other requests |
| `Retry.dfy` | the retry loop with exponential backoff on a real-valued clock |

Remote systems are part of the state (Neutron ports and rules, Octavia objects, the stored
Kubernetes object with its history) or inputs that range over everything they may answer: the
outcome of each call, what others wrote before it, the jitter, the time a call takes. A protocol is
a `State`, the `Step`s with their `Enabled` and `Apply`, and theorems about every `Run`. An object
that the source updates in place is a class whose methods are proved against functions of the old
state. Green threads switch only at I/O, so the code between two I/O calls is one step.

Results where the code does not do what its documentation suggests, each with the exact condition
under which it does:

- several `except` entries of an `ipBlock` open everything outside of what they have in common
  (`ExceptsMeaning`); port 0 opens every port (`NumberPortMeaning`); a namespace and a pod
  requirement together count for the last matching namespace (`BothSelectorsMeaning`); `except`
  entries that swallow all blocks of a rule open its ports to everybody (`SwallowedBlockMeaning`); a
  policy that lets everything in, by an empty rule after the first (`LaterEmptyBlockIsLost`) or by
  not being for ingress (`EgressPolicyStillRestricts`), keeps its meaning exactly where another rule
  opens the packet (`PolicyMeaningExactly`);
- a listener's access list reads a port range from zero as no range, which is right exactly when it
  is the whole range (`PortsMeaning`);
- a rule created in Neutron and not yet recorded stays there when the spec then drops it
  (`UnrecordedRule`);
- a security-group removal that deletes a group other than the one whose list it read files a port
  twice and loses another (`PortIsFiledTwice`); single owners are kept exactly when each port of the
  list was lost before or is in the group deleted (`StaleDeletionExactly`), and always when each
  removal deletes the list it read (`PoolRemovals.NoPortIsGivenTwice`);
- a port whose groups change between Neutron's answer to the listing of a return pass and its
  reading, and that is released in that time, is filed under its old groups, and no other is
  (`ReadingAgreesExactly`, over whole runs `SafeExactly`); a pod can be granted it
  (`WrongGroupsAreGranted`);
- max(pool_max, pool_min - 1) + max(batch, pool_min) bounds the size of a pool exactly when
  `port_debug` is off, pool_min is at most pool_max or the batch is smaller than pool_min
  (`PlainBoundExactly`): with `port_debug` the return pass checks the size before an I/O call. The
  largest size is known for every configuration (`PoolStaysWithinBound`, `BoundIsReached`);
- a port whose deletion by a return pass fails is no longer known, so the next pass that finds its pool
  full forgets it and Neutron keeps it for good (`FailedDeletion`,
  `LeaksNext`, `LeakedForGood`); a step leaks a port exactly when it loses one that is not known
  (`LeaksExactly`);
- an existing listener whose timeouts differ, under a spec that sets one timeout of the two, is stored
  with Octavia's value for the other, so one pass does not converge (`AddNewListeners`,
  `ReadyForAnyOctavia`); two do (`SyncTwice`);
- when the request for an additional VIF raises, the VIFs granted before it are in nobody's hands
  (`KeptExactly`, `AbandoningRun`);
- an event put after `_done` has retired its queue is never handled (`StrandedExactlyByDone`,
  `NoneStranded`, `StrandingRun`), and one that is queued when the handler raises, or put between the
  end of the worker and `_done`, is dropped (`DropsExactly`, `NoneDropped`).

## Model

| member | source | states |
|---|---|---|
| `PoolProtocol.NoPortIsGivenTwice` | kuryr_kubernetes/controller/drivers/vif_pool.py:201-389 | In every state of every run of requests, populations, releases, group updates, pool deletions and removals that delete the group they have just read, any number of each, and a return pass, a port is in one place and there once: a pool list, the recyclable ports, a removal's list, a pending request or a pod. |
| `PoolConservation.PortIsLostExactly` | kuryr_kubernetes/controller/drivers/vif_pool.py:201-389 | In every state of every run from the fresh driver, a port that was made is in a place if and only if no step before lost it: a request that ends without it, a return pass that deletes it or does not know it, a removal that fails, a pool that is forgotten with it. |
| `PoolConservation.StepLosesExactly` | kuryr_kubernetes/controller/drivers/vif_pool.py:234-389 | What one step does to that: ports move between places, appear with a population, and vanish in exactly those steps. |
| `PoolConservation.KnownUntil` | kuryr_kubernetes/controller/drivers/vif_pool.py:691-721 | A VIF leaves the known ones exactly when a return pass finds the pool of its port full or a pool deletion collects it. |
| `PoolConservation.FailedDeletion` | kuryr_kubernetes/controller/drivers/vif_pool.py:712-721 | When the deletion of a port fails, the pass ends with the port recyclable and in Neutron but not known. |
| `PoolConservation.LeaksExactly` | kuryr_kubernetes/controller/drivers/vif_pool.py:201-389 | A step leaves a port in Neutron and in no place if and only if it loses one that is not known and not collected, other than by deleting it. |
| `PoolConservation.LeaksNext` | kuryr_kubernetes/controller/drivers/vif_pool.py:712-721 | The next pass that finds the pool full forgets such a port and leaves it in Neutron. |
| `PoolConservation.LeakedForGood` | kuryr_kubernetes/controller/drivers/vif_pool.py:201-389 | It stays there, in no place of the driver, for the rest of the run. |
| `PoolProtocol.StepKeepsOwnership` | kuryr_kubernetes/controller/drivers/vif_pool.py:234-334 | Every step between two I/O calls keeps single owners, distinct index keys and ports that came from the driver. |
| `PoolProtocol.StepKeepsAgreement` | kuryr_kubernetes/controller/drivers/vif_pool.py:363-389 | Every step keeps each port filed under a non-empty tuple with exactly those groups in Neutron, also in the middle of a removal or a return pass, if an answer that is read is fresh. |
| `PoolProtocol.ReadingAgreesExactly` | kuryr_kubernetes/controller/drivers/vif_pool.py:683-690 | In a run, reading the answer to a listing keeps that agreement if and only if no step between the answer and the reading released a port of the answer that had by then other groups in Neutron. |
| `PoolProtocol.GrantedPortCarriesItsGroups` | kuryr_kubernetes/controller/drivers/vif_pool.py:234-268 | In a run without such a release, a request for a non-empty tuple that returns a port returns one that Neutron has with exactly those groups, from the exact group or the fallback. |
| `PoolProtocol.StepKeepsBacked` | kuryr_kubernetes/controller/drivers/vif_pool.py:789-810 | Ids the pool knows or a pod holds are disjoint from those collected for deletion and have a Neutron port. |
| `PoolProtocol.CollectedPortIsNeverGranted` | kuryr_kubernetes/controller/drivers/vif_pool.py:776-810 | Once a pool deletion has collected an id, no later state of the run has it with a pod or among the known VIFs. |
| `PoolProtocol.StepIsSound` | kuryr_kubernetes/controller/drivers/vif_pool.py:201-389 | Every step keeps single owners, the order of the return pass and ids backed by Neutron ports, however old a listing is. |
| `PoolProtocol.RunIsSound` | kuryr_kubernetes/controller/drivers/vif_pool.py:201-389 | So does every run. |
| `PoolProtocol.RunIsSafe` | kuryr_kubernetes/controller/drivers/vif_pool.py:201-389 | In every run without such a release, agreement with Neutron holds as well in every state. |
| `PoolProtocol.SafeExactly` | kuryr_kubernetes/controller/drivers/vif_pool.py:672-721 | And in no other run: all invariants hold in all states if and only if no port is released between an answer and its reading with other groups than answered. |
| `PoolProtocol.FreshExactly` | kuryr_kubernetes/controller/drivers/vif_pool.py:683-690 | The recyclable ports of an answer have the groups answered when it is read if and only if there was no such release. |
| `PoolProtocol.EmptyIsSafe` | kuryr_kubernetes/controller/drivers/vif_pool.py:165-170 | The fresh driver satisfies the invariants. |
| `PoolRuns.WrongGroupsAreGranted` | kuryr_kubernetes/controller/drivers/vif_pool.py:683-711 | For any two different tuples, the first not empty, a run from the fresh driver with one stale listing is about to grant a port that has the second to a request for the first. |
| `PoolRemovals.NoPortIsGivenTwice` | kuryr_kubernetes/controller/drivers/vif_pool.py:363-389 | With removals that list a pool's groups first and go through them with I/O in between, single owner holds in every state of every run in which each removal deletes the list it read, whatever else happens between. |
| `PoolRemovals.WorldIsSound` | kuryr_kubernetes/controller/drivers/vif_pool.py:363-389 | So do all invariants that need no fresh listing. |
| `PoolRemovals.WorldIsSafe` | kuryr_kubernetes/controller/drivers/vif_pool.py:363-389 | The agreement with Neutron holds too in all states of such a run if and only if no port is released between an answer and its reading with other groups than answered. |
| `PoolRemovals.StaleDeletionExactly` | kuryr_kubernetes/controller/drivers/vif_pool.py:368-389 | After such a run, a removal that deletes a group while its own list is of another, deleted before, keeps single owners if and only if each port of that list was lost before or is in the group deleted. |
| `PoolRemovals.PortIsFiledTwice` | kuryr_kubernetes/controller/drivers/vif_pool.py:363-389 | A run from the fresh driver with two removals of a group ends with a port twice in a pool and another known but in no place. |
| `PoolSize.StepGrowth` | kuryr_kubernetes/controller/drivers/vif_pool.py:279-316 | By how much each step changes the size of each pool. |
| `PoolSize.PoolStaysWithinBound` | kuryr_kubernetes/controller/drivers/vif_pool.py:270-316 | With a positive maximum, every size reached by requests, populations and returns interleaved is at most the larger of the initial size, pool_max + max(batch, pool_min) and pool_min - 1 + batch, the last with one more under `port_debug`. |
| `PoolRuns.BoundIsReached` | kuryr_kubernetes/controller/drivers/vif_pool.py:270-316 | For every configuration with a positive minimum and maximum, a run of those steps from the fresh driver reaches that bound. |
| `PoolRuns.PlainBoundExactly` | kuryr_kubernetes/controller/drivers/vif_pool.py:691-711 | max(pool_max, pool_min - 1) + max(batch, pool_min) bounds the size in every run if and only if `port_debug` is off, pool_min is at most pool_max or the batch is smaller than pool_min. |
| `PoolRuns.DebugPoolOutgrows` | kuryr_kubernetes/controller/drivers/vif_pool.py:691-711 | A configuration that exceeds it by one: with a maximum of 1, a minimum and a batch of 2 and `port_debug`, a run of those steps from the fresh driver gets to size 4. |
| `PortIndex.FileFacts` | kuryr_kubernetes/controller/drivers/vif_pool.py:304-311 | Filing adds the port once to the contents and keeps the keys distinct. |
| `PortIndex.FileFiling` | kuryr_kubernetes/controller/drivers/vif_pool.py:304-311 | Filing changes what is filed where by exactly that port and key. |
| `PortIndex.MoveFacts` | kuryr_kubernetes/controller/drivers/vif_pool.py:306-311 | Moving a group to either end keeps contents and keys. |
| `PortIndex.PopFacts` | kuryr_kubernetes/controller/drivers/vif_pool.py:240-253 | Popping takes exactly one port out of the contents. |
| `PortIndex.ChooseFindsAPort` | kuryr_kubernetes/controller/drivers/vif_pool.py:240-256 | The choice of a group fails exactly when the pool has no port at all. |
| `VifPool.VIFPool.GetPoolSize` | kuryr_kubernetes/controller/drivers/vif_pool.py:181-186 | The loop counts the ports of all groups; a missing pool has none. |
| `VifPool.VIFPool.GetPortFromPool` | kuryr_kubernetes/controller/drivers/vif_pool.py:234-268 | Pops from the exact group if it has a port, else from the oldest group that has one, whose port gets the groups in Neutron; an empty pool, an unknown id and a failed update are told apart, and the rest is unchanged. |
| `VifPool.VIFPool.Populate` | kuryr_kubernetes/controller/drivers/vif_pool.py:304-311 | The new VIFs are known and filed under the requested groups, which become the newest group. |
| `VifPool.VIFPool.ReleaseAndReturn` | kuryr_kubernetes/controller/drivers/vif_pool.py:318-334 | A released port and the next pass: it is in its pool again, known and in Neutron as before, filed under the groups it was listed with, or the pool is full and it is gone from both. |
| `VifPool.VIFPool.TriggerReturnToPool` | kuryr_kubernetes/controller/drivers/vif_pool.py:672-721 | One pass empties the recyclable ports, each pool gets the first ports that fit it, each filed under its own groups as listed or under None when ports were not listed or it was not among them, nothing else is filed anew, the group of the last one is the newest, and exactly the other ports leave the known VIFs and Neutron. |
| `VifPool.VIFPool.TriggerNestedReturn` | kuryr_kubernetes/controller/drivers/vif_pool.py:889-943 | The pass of nested pools has the same accounting and filing, and exactly the dropped ports leave their trunks and give their VLAN ids back. |
| `VifPool.PassAccounting` | kuryr_kubernetes/controller/drivers/vif_pool.py:691-721 | A pool of size s with n recyclable ports ends at s + n without a maximum, else at max(s, min(max, s + n)). |
| `VifPool.DroppedMembers` | kuryr_kubernetes/controller/drivers/vif_pool.py:691-721 | A port is dropped exactly when at its turn the pool it returns to is full. |
| `VifPool.PortBackOrGone` | kuryr_kubernetes/controller/drivers/vif_pool.py:691-721 | Each recyclable port of a pass ends in its pool, or its pool is full and the port is gone. |
| `VifPool.VIFPool.RemoveSgFromPool` | kuryr_kubernetes/controller/drivers/vif_pool.py:363-389 | On a normal return no group of the pool names the group, the drained ports are filed under the empty tuple and cleared in Neutron, the contents and all other groups are as before. |
| `VifPool.RemoveStep` | kuryr_kubernetes/controller/drivers/vif_pool.py:368-389 | What one group of the snapshot contributes to that. |
| `PoolRefinement.PassIsTheMethod` | kuryr_kubernetes/controller/drivers/vif_pool.py:672-721 | The steps of a return pass, every call succeeding and nothing in between, do to the dictionaries what the method does, for any pass of any state. |
| `PoolRefinement.RequestIsTheMethod` | kuryr_kubernetes/controller/drivers/vif_pool.py:234-268 | So do the steps of a request: the port popped, its groups in Neutron, and the pod that gets it. |
| `PoolRefinement.PopulationIsTheMethod` | kuryr_kubernetes/controller/drivers/vif_pool.py:279-316 | And those of a population. |
| `PoolRefinement.RemovalIsTheMethod` | kuryr_kubernetes/controller/drivers/vif_pool.py:368-389 | And those of a removal on one group: its ports are cleared and filed under the empty tuple, which becomes the oldest group. |
| `LoadBalancer.MemberNameParsesBack` | kuryr_kubernetes/controller/drivers/lbaasv2.py:481-482 | The name written for a member parses back to its target if and only if the target has neither separator. |
| `LoadBalancer.OneRoute` | kuryr_kubernetes/controller/handlers/loadbalancer.py:438-460 | A spec port name leads to one pool. |
| `LoadBalancer.ReadyForAnyOctavia` | kuryr_kubernetes/controller/drivers/lbaasv2.py:649-690 | A listener comes back with the timeouts of the spec whatever Octavia has if and only if the spec sets both timeouts or neither. |
| `LoadBalancerPass.PortInPool` | kuryr_kubernetes/controller/handlers/loadbalancer.py:603-612 | Finds a spec port served by a listener of the pool, or there is none. |
| `LoadBalancerPass.LoadBalancerCrd.EnsureListener` | kuryr_kubernetes/controller/drivers/lbaasv2.py:372-406 | Creates the listener or finds the one of that protocol and port; the result has the spec's timeouts if and only if the one found does not have its timeouts changed under a spec that sets one of the two only; Octavia has them in any case. |
| `LoadBalancerPass.LoadBalancerCrd.RemoveUnusedMembers` | kuryr_kubernetes/controller/handlers/loadbalancer.py:614-669 | Afterwards every member is one an endpoint asks for or has a protected address; a member stays if that holds of every member with its id, and without one to remove nothing is written. |
| `LoadBalancerPass.LoadBalancerCrd.RemoveUnusedPools` | kuryr_kubernetes/controller/handlers/loadbalancer.py:726-747 | The pools left serve spec ports and resolve whatever the lists held before; exactly the members of other pools go. |
| `LoadBalancerPass.LoadBalancerCrd.RemoveUnusedListeners` | kuryr_kubernetes/controller/handlers/loadbalancer.py:837-855 | The listeners left have pools, and every pool still resolves. |
| `LoadBalancerPass.LoadBalancerCrd.SyncLoadBalancer` | kuryr_kubernetes/controller/handlers/loadbalancer.py:878-918 | Ends with a load balancer at the spec's address or raises; replacing one empties the lists. |
| `LoadBalancerPass.LoadBalancerCrd.AddNewListeners` | kuryr_kubernetes/controller/handlers/loadbalancer.py:763-835 | Adds only listeners of the spec, none for SCTP where it is not supported, and keeps every listener id that pools refer to; a failed patch ends it; when all calls succeed it serves every spec port with its timeouts if and only if each was ready, and each is ready for the next pass. |
| `LoadBalancerPass.SweepUnique` | kuryr_kubernetes/controller/handlers/loadbalancer.py:822-827 | Removing from the list under iteration takes out the replaced listener when ids are unique. |
| `LoadBalancerPass.LoadBalancerCrd.AddNewPools` | kuryr_kubernetes/controller/handlers/loadbalancer.py:685-710 | Every listener has a pool when all calls succeed; a failed patch ends it; nothing is written when each has one. |
| `LoadBalancerPass.LoadBalancerCrd.PoolsByName` | kuryr_kubernetes/controller/handlers/loadbalancer.py:438-460 | Maps exactly the served port names, each to a pool that serves it; the lookup by listener id never misses. |
| `LoadBalancerPass.LoadBalancerCrd.AddNewMembers` | kuryr_kubernetes/controller/handlers/loadbalancer.py:430-547 | Every target of an endpoint has a member when all calls succeed, only asked-for members are added, each new name parses back, a failed patch ends it, and when the refresh of the groups fails nothing is added. |
| `LoadBalancerPass.AddedAreWanted` | kuryr_kubernetes/controller/handlers/loadbalancer.py:520-546 | Members added in a pass are ones the next pass keeps. |
| `LoadBalancerPass.NamedAfterTarget` | kuryr_kubernetes/controller/handlers/loadbalancer.py:480-546 | A new member has the endpoint's address and the slice's port and is named after the pod the endpoint refers to, or after the Service. |
| `LoadBalancerPass.LoadBalancerCrd.SyncListeners` | kuryr_kubernetes/controller/handlers/loadbalancer.py:749-761 | The listener stages together: what they serve, keep and leave resolvable. |
| `LoadBalancerPass.LoadBalancerCrd.SyncPools` | kuryr_kubernetes/controller/handlers/loadbalancer.py:671-683 | The pool stages together. |
| `LoadBalancerPass.LoadBalancerCrd.SyncMembers` | kuryr_kubernetes/controller/handlers/loadbalancer.py:375-388 | One pass: at every failure the ids in every status handed to the API resolve; from a status linked to Octavia, with all calls succeeding, it converges if the ports are ready (listeners equal the spec's, each with a pool, members equal the endpoint targets) and leaves them ready otherwise; members the endpoints ask for stay unless the load balancer is replaced; a changed status is reported; from a converged status it changes nothing and writes no listener, pool, member or status. |
| `LoadBalancerPass.LoadBalancerCrd.SyncAllButMembers` | kuryr_kubernetes/controller/handlers/loadbalancer.py:375-386 | The stages before members are added leave listeners and pools of the spec and only members that are wanted. |
| `LoadBalancerPass.LoadBalancerCrd.SyncTwice` | kuryr_kubernetes/controller/handlers/loadbalancer.py:375-388 | Two passes converge, whatever timeouts Octavia's listeners had. |
| `Addresses.ExcludeIsExact` | kuryr_kubernetes/controller/drivers/network_policy.py:515-522 | CIDR exclusion leaves exactly the addresses of the block that the excluded block has not. |
| `Addresses.SameAddressesSameBlock` | kuryr_kubernetes/controller/drivers/network_policy.py:515-522 | Blocks that hold the same addresses are equal. |
| `NetworkPolicy.PodsInMatchingNamespaces` | kuryr_kubernetes/controller/drivers/network_policy.py:220-230 | The loop ends with the pods of the last matching namespace. |
| `NetworkPolicy.SelectorResources` | kuryr_kubernetes/controller/drivers/network_policy.py:242-289 | The resources found for a selector reach exactly the addresses its branch stands for. |
| `NetworkPolicy.ParseSelectors` | kuryr_kubernetes/controller/drivers/network_policy.py:242-289 | The resources reach what some selector opens, CIDRs are given exactly for a cluster-wide selector and hold the pod subnets and the service subnet, and the flag tells whether there is any selector. |
| `NetworkPolicy.IpBlockResources` | kuryr_kubernetes/controller/drivers/network_policy.py:515-524 | The resources of an ipBlock reach it without what all its excepts share, and are none exactly when each except covers it. |
| `NetworkPolicy.RulesOnNumberPort` | kuryr_kubernetes/controller/drivers/network_policy.py:388-412 | The rules added admit exactly the reached sources on that port and protocol, and each names the address and the namespace of a resource. |
| `NetworkPolicy.AllPodsRules` | kuryr_kubernetes/controller/drivers/network_policy.py:413-437 | The rules added admit the CIDRs, or without any everybody, on that port. |
| `NetworkPolicy.BlockRules` | kuryr_kubernetes/controller/drivers/network_policy.py:498-570 | The rules of one block admit exactly what the block opens. |
| `NetworkPolicy.ParseSgRules` | kuryr_kubernetes/controller/drivers/network_policy.py:449-570 | The rules of a policy admit exactly what its blocks open, with the defaults for egress-only policies and a leading empty block. |
| `NetworkPolicyMeaning.PeerMeaning` | kuryr_kubernetes/controller/drivers/network_policy.py:242-289 | A peer opens a source exactly when Kubernetes admits it, for pods and for addresses outside of the cluster. |
| `NetworkPolicyMeaning.BlockMeaning` | kuryr_kubernetes/controller/drivers/network_policy.py:498-570 | A block in the fragment opens a packet exactly when it admits it. |
| `NetworkPolicyMeaning.PolicyMeaning` | kuryr_kubernetes/controller/drivers/network_policy.py:449-570 | So does a policy. |
| `NetworkPolicyMeaning.PolicyMeaningExactly` | kuryr_kubernetes/controller/drivers/network_policy.py:449-570 | Whatever its types and wherever its empty blocks are, a policy keeps its meaning at a packet if and only if it does not let everything in, or its first block is empty, another block admits the packet, or it has no blocks and is for egress only. |
| `NetworkPolicyMeaning.IngressRules` | kuryr_kubernetes/controller/drivers/network_policy.py:654-668 | The emitted rules admit a packet if and only if the policy does, for every policy in the fragment and every source. |
| `NetworkPolicyMeaning.ExceptsMeaning` | kuryr_kubernetes/controller/drivers/network_policy.py:515-522 | Several excepts keep their meaning if and only if they are all the same block. |
| `NetworkPolicyMeaning.NumberPortMeaning` | kuryr_kubernetes/controller/drivers/utils.py:275-307 | A numeric port keeps its meaning if and only if it is not zero, and next to a cluster-wide selector if its protocol is also given. |
| `NetworkPolicyMeaning.BothSelectorsMeaning` | kuryr_kubernetes/controller/drivers/network_policy.py:220-230 | Both requirements keep their meaning if and only if every pod they admit is in the last matching namespace. |
| `NetworkPolicyMeaning.SwallowedBlockMeaning` | kuryr_kubernetes/controller/drivers/network_policy.py:526-545 | A block keeps its meaning at a packet if and only if it is not the case that it has ports, all its peers are ipBlocks covered by each of their excepts, and one of its ports admits the packet. |
| `NetworkPolicyMeaning.LaterEmptyBlockIsLost` | kuryr_kubernetes/controller/drivers/network_policy.py:491-496 | With an empty block after the first the policy admits everything, and the rules exactly the packets another block admits, or everything if the first block is empty too. |
| `NetworkPolicyMeaning.EgressPolicyStillRestricts` | kuryr_kubernetes/controller/drivers/network_policy.py:463-483 | A policy that is not for ingress admits everything, and its rules exactly the packets a block admits, or everything if the first block is empty or there is none and the policy is for egress only. |
| `RuleDiff.Compare` | kuryr_kubernetes/controller/handlers/kuryrnetworkpolicy.py:78-85 | Two rules are the same exactly when direction, ethertype, both ends of the port range, protocol and remote prefix are. |
| `RuleDiff.SixExactly` | kuryr_kubernetes/controller/handlers/kuryrnetworkpolicy.py:78-85 | What the phase brings about is determined by exactly those six properties. |
| `RuleDiff.Find` | kuryr_kubernetes/controller/handlers/kuryrnetworkpolicy.py:87-92 | Found exactly when some rule has the same six properties, by name. |
| `RuleDiff.Handler.Create` | kuryr_kubernetes/controller/drivers/utils.py:188-216 | A rule Neutron has is answered with its id, another is created under a new one. |
| `RuleDiff.DoneIsKept` | kuryr_kubernetes/controller/handlers/kuryrnetworkpolicy.py:145-159 | Removing the original indexes from the last to the first leaves exactly the entries to keep, in order. |
| `RuleDiff.DiffReachesTarget` | kuryr_kubernetes/controller/handlers/kuryrnetworkpolicy.py:111-159 | The kept entries and the added ones have the six properties of the required rules and no others. |
| `RuleDiff.CreateIsSteady` | kuryr_kubernetes/controller/drivers/utils.py:188-216 | Creating a required rule keeps agreement with Neutron and makes no stray. |
| `RuleDiff.DropIsSteady` | kuryr_kubernetes/controller/handlers/kuryrnetworkpolicy.py:154-159 | So does dropping an entry whose rule is deleted. |
| `RuleDiff.NeutronFollows` | kuryr_kubernetes/controller/handlers/kuryrnetworkpolicy.py:111-159 | Once the listed rules are the required ones, Neutron holds those and the strays. |
| `RuleDiff.Handler.Sync` | kuryr_kubernetes/controller/handlers/kuryrnetworkpolicy.py:111-159 | A completed phase leaves the kept entries in order followed by the missing ones, equal to the required rules, and the same rules in Neutron; a stop anywhere keeps agreement, strays and every required rule; it completes exactly with enough remote steps. |
| `RuleDiff.Handler.StopAndRerun` | kuryr_kubernetes/controller/handlers/kuryrnetworkpolicy.py:111-159 | Stopped after any number of remote steps and run again to its end, the phase ends in the required rules in the status and in Neutron. |
| `RuleDiff.NextSpecIsFree` | kuryr_kubernetes/controller/handlers/kuryrnetworkpolicy.py:111-159 | After a completed phase any other spec can be brought about. |
| `RuleDiff.UnrecordedRule` | kuryr_kubernetes/controller/handlers/kuryrnetworkpolicy.py:137-144 | A rule created and not recorded is a stray for exactly the specs that do not ask for it. |
| `EventQueue.StepKeepsOneWorker` | kuryr_kubernetes/handlers/asynchronous.py:54-70 | Every step keeps at most one live worker, that of the registered queue. |
| `EventQueue.StepConserves` | kuryr_kubernetes/handlers/asynchronous.py:54-120 | Every step moves events between places and loses none. |
| `EventQueue.EachEventInOnePlace` | kuryr_kubernetes/handlers/asynchronous.py:54-120 | In every reachable state each accepted event is in exactly one place: pending, queued or held, handled, superseded, dropped by `_done`, or in a retired queue. |
| `EventQueue.HandledInOrder` | kuryr_kubernetes/handlers/asynchronous.py:72-109 | Handled events are a strictly increasing subsequence of the puts, over all workers of the group. |
| `EventQueue.HandledInCallOrder` | kuryr_kubernetes/handlers/asynchronous.py:72-109 | And of the calls, in runs where a call puts its event before the next one starts. |
| `EventQueue.StepKeepsLater` | kuryr_kubernetes/handlers/asynchronous.py:104-109 | A superseded event always has a later one that was handled or is about to be. |
| `EventQueue.StrandedExactlyByDone` | kuryr_kubernetes/handlers/asynchronous.py:54-114 | A step leaves an event in a retired queue if and only if it is a `put` and `_done` ran between the lookup of its queue and it. |
| `EventQueue.NoneStranded` | kuryr_kubernetes/handlers/asynchronous.py:54-114 | So no event is lost that way in a run if and only if `_done` never comes between a lookup and its `put`. |
| `EventQueue.StrandingRun` | kuryr_kubernetes/handlers/asynchronous.py:54-114 | A run from the start in which an event is lost that way. |
| `EventDrops.OverExactly` | kuryr_kubernetes/handlers/asynchronous.py:72-114 | A worker is over if and only if its handler raised or its queue stayed empty for the grace period, and `_done` has not run since. |
| `EventDrops.DroppedExactly` | kuryr_kubernetes/handlers/asynchronous.py:111-120 | `_done` drops exactly what was queued when the handler raised and what was put since the worker ended. |
| `EventDrops.DropsExactly` | kuryr_kubernetes/handlers/asynchronous.py:72-120 | A step drops events if and only if it is a `_done` after a handler that raised with events queued, or after a put to the queue of a worker that had ended. |
| `EventDrops.NoneDropped` | kuryr_kubernetes/handlers/asynchronous.py:72-120 | Nothing is dropped in a run if and only if there is no such `_done`. |
| `EventDrops.HandlesLatest` | kuryr_kubernetes/handlers/asynchronous.py:104-109 | The event that is handled is the last one put into its queue so far. |
| `EventDrops.QueuesWithinDepth` | kuryr_kubernetes/handlers/asynchronous.py:64-70 | No queue holds more events than its depth. |
| `EventDrops.QueueIsWorkedOff` | kuryr_kubernetes/handlers/asynchronous.py:75-109 | A waiting worker with events queued gets to where the last of them is handled, the others are superseded and it waits again. |
| `EventDrops.IdleWorkerEnds` | kuryr_kubernetes/handlers/asynchronous.py:79-114 | One with nothing queued ends, the group has no queue again and nothing is lost. |
| `EventQueue.InjectedIsIgnored` | kuryr_kubernetes/handlers/asynchronous.py:54-62 | With a registered queue an injected event changes nothing, and one that is queued is the one the queue was made for. |
| `EventQueue.RunIsSafe` | kuryr_kubernetes/handlers/asynchronous.py:54-120 | All queue invariants hold in every state of every run. |
| `CniRegistry.StepIsSafe` | kuryr_kubernetes/cni/handlers.py:36-75 | Every locked section and every unlocked read keeps what the flags of the entry say. |
| `CniRegistry.NeverBothFlags` | kuryr_kubernetes/cni/plugins/k8s_cni_registry.py:156-168 | No stored entry has both flags set. |
| `CniRegistry.RemovedBySecond` | kuryr_kubernetes/cni/plugins/k8s_cni_registry.py:112-168 | The entry of a uid is removed exactly once, by whichever of the DELETED event and a DEL comes second, and not before. |
| `CniRegistry.DeletedFindsItsEntry` | kuryr_kubernetes/cni/handlers.py:57-75 | Under the lock the DELETED event finds the entry of the uid it checked for. |
| `CniRegistry.DelFinishesWhatItUnplugged` | kuryr_kubernetes/cni/plugins/k8s_cni_registry.py:139-168 | A DEL marks or removes the entry of the uid it unplugged. |
| `CniRegistry.SameUidKeepsFlags` | kuryr_kubernetes/cni/handlers.py:36-55 | Updates of the same uid keep the container id and both flags; another uid starts afresh. |
| `CniRegistry.ForeignDelChangesNothing` | kuryr_kubernetes/cni/plugins/k8s_cni_registry.py:112-135 | A DEL ends at its check exactly when a different container id is recorded; it has changed nothing, and no step of it is possible in any later state until the request is made anew. |
| `CniRegistry.LastAddOwns` | kuryr_kubernetes/cni/plugins/k8s_cni_registry.py:75-84 | While the entry of a uid is there, it records the container of the last ADD. |
| `CniRegistry.OlderDelIsIgnored` | kuryr_kubernetes/cni/plugins/k8s_cni_registry.py:75-135 | So a DEL for any other container changes nothing and ends. |
| `CniRegistry.ActivityIsCurrent` | kuryr_kubernetes/cni/handlers.py:36-55 | The entry shows the activity of the last update on the interfaces it has, and a new uid brings its own VIFs. |
| `CniRegistry.MarkedExactly` | kuryr_kubernetes/cni/handlers.py:57-75 | A name is marked as that of a deleted pod if and only if the pod went away without an entry and neither a KuryrPort nor a DEL has come since. |
| `CniRegistry.DelUnderWay` | kuryr_kubernetes/cni/plugins/k8s_cni_registry.py:112-168 | When a DEL request begins and by which steps it ends, in both directions. |
| `CniRegistry.EntryGoes` | kuryr_kubernetes/cni/plugins/k8s_cni_registry.py:112-168 | From an entry nobody has acted on, a DEL of its container and the DELETED event remove it, whichever comes first. |
| `PortLifecycle.GoneAfterRelease` | kuryr_kubernetes/controller/handlers/kuryrport.py:186-265 | A KuryrPort disappears only after every VIF it names was released, or for an orphan after its release was tried, and never while its pod runs. |
| `PortLifecycle.NothingReleasedWhilePodRuns` | kuryr_kubernetes/controller/handlers/kuryrport.py:186-248 | Finalization releases nothing while the pod of the same uid is neither deleting nor completed. |
| `PortLifecycle.PodDroppedWithoutPort` | kuryr_kubernetes/controller/handlers/vif.py:123-167 | The pod handler, entered for a deleted or a completed pod, drops the pod's finalizer only when there is no KuryrPort. |
| `PortLifecycle.FinalizationOnPod` | kuryr_kubernetes/controller/handlers/kuryrport.py:186-265 | A finalization that began without the pod of the KuryrPort's uid leaves the stored pod alone; any other leaves it alone until every VIF is released and then takes exactly its finalizer, a pod of the KuryrPort's uid being deleted or completed by then. |
| `PortLifecycle.OnlyFinalizationTouchesPods` | kuryr_kubernetes/controller/handlers/kuryrport.py:67-265 | The KuryrPort handler changes a pod in no other way. |
| `PortLifecycle.MadeForItsPod` | kuryr_kubernetes/controller/handlers/vif.py:50-121 | A KuryrPort is made for the pod the handler was told of, without VIFs, and only after the pod stored under that name had got the finalizer. |
| `PortLifecycle.RequestedForItsPod` | kuryr_kubernetes/controller/handlers/kuryrport.py:67-75 | VIFs are requested only in a handling that began with the pod of the KuryrPort's uid there and no VIFs named. |
| `PortCompletion.NewPodIsServed` | kuryr_kubernetes/controller/handlers/vif.py:50-121 | From a running pod without a KuryrPort the handlers get to one with a finalizer and a KuryrPort of its uid naming exactly the VIFs granted. |
| `PortCompletion.DeletedPodIsCleanedUp` | kuryr_kubernetes/controller/handlers/kuryrport.py:186-265 | From any deleted pod, whatever KuryrPort is stored under its name, they get to where both are gone and exactly the VIFs named have been released. |
| `PortCompletion.OrphanIsCleanedUp` | kuryr_kubernetes/controller/handlers/kuryrport.py:186-265 | A KuryrPort without its pod that is deleted or has no VIFs gets to be gone, what it named released, a pod of another uid untouched. |
| `PortCompletion.GoneMeanwhile` | kuryr_kubernetes/controller/handlers/vif.py:123-167 | A pod handler that finds the KuryrPort gone at any of its calls lets the pod go. |
| `PortLifecycle.NoVifIsForgotten` | kuryr_kubernetes/controller/handlers/kuryrport.py:267-347 | A requested VIF is named by the KuryrPort, in the handler's hands or released, unless its release failed, the controller stopped with it or a request for an additional VIF raised after it. |
| `PortLifecycle.AbandonedExactly` | kuryr_kubernetes/controller/handlers/kuryrport.py:310-347 | A VIF is abandoned if and only if a request for an additional VIF raised with it in hand. |
| `PortLifecycle.AbandonedForGood` | kuryr_kubernetes/controller/handlers/kuryrport.py:310-347 | An abandoned VIF is never named by a KuryrPort, in anybody's hands or released again. |
| `PortLifecycle.KeptExactly` | kuryr_kubernetes/controller/handlers/kuryrport.py:310-359 | A requested VIF, its release not failed and the controller not stopped with it, is named, in hand or released if and only if no additional request raised after it in the same call. |
| `PortLifecycle.AbandoningRun` | kuryr_kubernetes/controller/handlers/kuryrport.py:310-347 | A run from the start after which the pod runs, its KuryrPort names no VIF and the VIF granted is in no place. |
| `PortLifecycle.StepIsSafe` | kuryr_kubernetes/controller/handlers/kuryrport.py:186-359 | Every step of users, handlers and restarts keeps the life cycle invariants. |
| `Finalizers.Object.AddFinalizer` | kuryr_kubernetes/k8s_client.py:221-261 | At most three PATCHes; a successful one appends the finalizer to the version it replaces and changes nothing else; yes means a version has the finalizer, no that the object is leaving, and it raises only after a failed request or three conflicts with as many writes of others. |
| `Finalizers.Object.RemoveFinalizer` | kuryr_kubernetes/k8s_client.py:263-300 | At most three PATCHes; a successful one takes out exactly one occurrence; yes means one was taken out or a version lacked it, and it raises only after a failed request or three conflicts. |
| `Finalizers.NoOtherEntryIsLost` | kuryr_kubernetes/k8s_client.py:221-300 | Every entry of another writer is there as often as before. |
| `ListenerAcl.GatherRules` | kuryr_kubernetes/controller/drivers/lbaasv2.py:214-235 | What is gathered from a group stands for exactly the sources its rules let in. |
| `ListenerAcl.GatherGroups` | kuryr_kubernetes/controller/drivers/lbaasv2.py:206-235 | And from all groups, a default group opening the listener. |
| `ListenerAcl.PortsMeaning` | kuryr_kubernetes/controller/drivers/lbaasv2.py:226-231 | Over the ports 0 to 65535 a rule's range is read as meant if and only if it does not start at zero or goes on to the last port. |
| `ListenerAcl.Listener.UpdateAcls` | kuryr_kubernetes/controller/drivers/lbaasv2.py:620-647 | No list admits everybody, an empty one nobody. |
| `ListenerAcl.Listener.CreateAcls` | kuryr_kubernetes/controller/drivers/lbaasv2.py:189-241 | The listener admits a source exactly when there are no groups to apply or they open it; when ranges from zero are whole ranges, that is when one other than the load balancer's own is a default pod group or has an ingress rule for the protocol and port that admits the source. |
| `VlanReservation.Driver.Reserve` | kuryr_kubernetes/controller/drivers/nested_vlan_vif.py:196-216 | Reserves distinct ids of the range that the trunk does not use, exactly those it returns, and fewer than asked for only when every id of the range is used or reserved. |
| `VlanReservation.Driver.ReleaseAll` | kuryr_kubernetes/controller/drivers/nested_vlan_vif.py:110-120 | Gives back everything the request holds. |
| `VlanReservation.Driver.RequestVifs` | kuryr_kubernetes/controller/drivers/nested_vlan_vif.py:80-127 | Returns VIFs with distinct ids that were free on the trunk and holds exactly those, or holds nothing; only a failed binding keeps ids. Without VIFs, a port is left behind exactly when its deletion failed; it raises exactly when the lookup or the creation of the ports fails. |
| `Retry.ToSleep` | kuryr_kubernetes/utils.py:208-237 | A sleep lasts an interval at least, reaches the deadline or the backoff with its jitter, and passes the deadline only as a single interval. |
| `Retry.ThirteenSleepsSuffice` | kuryr_kubernetes/utils.py:240-260 | With the defaults thirteen sleeps outlast the timeout and twelve do not. |
| `Retry.IntervalsCover` | kuryr_kubernetes/handlers/retry.py:57-61 | As many intervals as the rounded-up quotient cover the timeout. |
| `Retry.Loop.Sleep` | kuryr_kubernetes/utils.py:208-237 | Sleeps exactly when the deadline has not passed, and asks for less than an interval beyond it. |
| `Retry.Loop.Run` | kuryr_kubernetes/handlers/retry.py:57-121 | The handler is called at most one time more than sleeps that cover the timeout, so at most ceil(timeout / interval) + 1 times and at most 14 with the defaults, and again only after a failure that is not ready, over quota or listed; no sleep ends a full interval after the deadline; before the deadline only another conflict or an unexpected failure is raised; it gives up silently only when the object is gone before a call; the handler is marked dead for exactly the failures that say so. |

## Left out

- Leader hand-over and the watcher's start and stop: a flag and two calls, nothing beyond their bodies.
- HTTP, TLS, metrics, health probes, configuration, logging, Kubernetes Events, CLI tools, CNI binding drivers: I/O.
- NetworkPolicy for egress (service rules chosen by heuristics), named ports, `endPort`, and ports without a number; label matching is the API server's and is an input.
- NetworkPolicyMeaning.PeerMeaning: pods on the host network and addresses of a pod subnet that no pod has are outside of it; the cluster is one whose namespaces have disjoint subnets cut from the pod subnet pool.
- The conversion of Endpoints to endpoint slices: slices are inputs.
- LoadBalancerPass.LoadBalancerCrd.SyncMembers: convergence is for a status linked to Octavia (an id of the status names the object of its protocol and port there); a status stored before a release whose patch failed is not, and the source then acts on ids Octavia no longer has. It is for named spec ports, SCTP and double listeners supported, timeouts supported by Octavia, outside of the exception for the `kubernetes` service; a patch hands over the whole status and its effect field by field on the stored object is not modelled; the refresh of the load balancer's groups is a call without other effect and not counted as a write; listeners in ERROR, member names without a slash, on which the source raises, and lists without a load balancer are excluded.
- PoolProtocol.NoPortIsGivenTwice: a removal deletes the group it has just read; removals with lists read earlier are in `PoolRemovals`. Forced population, recovery of ports at start and NestedVIFPool's deletion are not steps. Groups of a port are changed from outside only while a pod holds it.
- PoolSize.PoolStaysWithinBound: without pool deletion, security-group removal and forced population.
- VifPool.VIFPool.RemoveSgFromPool: one pool; the loop over the pools of a network repeats it. `VIFPool` methods run without interruption; what happens between their I/O calls is in `PoolProtocol`.
- VifPool.VIFPool.TriggerReturnToPool: every remote call succeeds, as the accounting assumes, for nested pools too; failures are steps of `PoolProtocol`.
- EventQueue.EachEventInOnePlace: the time a worker waits is not modelled, only that it ends when its queue is empty.
- CniRegistry.RemovedBySecond: events of a name come in the order the API has them, one DELETED per uid, and no other uid takes over during a DEL; the wait for active VIFs, and the KeyError for an interface that was not there before, are left out.
- PortLifecycle.GoneAfterRelease: handlers start from the objects as stored and one event of an object is handled at a time; activation of VIFs and the release when a KuryrPort is gone at activation are left out, and so are security-group rules and services.
- Finalizers.Object.AddFinalizer: the object passed is the one stored at its version.
- ListenerAcl.Listener.CreateAcls: target ports are integers; the address family of a rule without a prefix is not looked at, as in the source.
- VlanReservation.Driver.RequestVifs: the segmentation driver never gives an id that is reserved or passed as used; the attachment of a single subport with its own retry is left out.
- Retry.Loop.Run: the lookup of the object before each call takes no time.
- `get_resource_name`, quota checks, name resolution and the data carried by VIFs, ports and rules beyond what is named above.
