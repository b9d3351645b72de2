# Resource lifecycle of the Alibaba Cloud provider for Cluster API

A Dafny model of how the provider's controllers create, adopt, back-fill, garbage-collect and delete
`VPC`, `Vswitch`, `ManagedKubernetes` and `KubernetesNodePool` objects in one shared API server, and proofs
about every run of the whole system.

Check it with `dafny verify dfyconfig.toml`.

## How the model is built

- **The API server** (`ApiServer`) is a value: maps from names to objects with uid, owner references,
  deletion time and finalizers, a clock, and a log that says for ever which object and which owners each uid
  was born with. An object whose deletion was asked for disappears with its last finalizer. Updates of owner
  objects are guarded by the resource version and by the admission webhooks.
- **The reconcilers** are methods of classes over a mutable `Client`, an array of vswitch entries and an
  in-memory owner object, written step by step as in the source (`VswitchReconcile`, `VpcReconcile`,
  `ControlPlaneController`, `MachinePoolController`, `Collectors`). Each is proved equal to a specification
  function of the store it found; the theorems are about these functions. Every API call of a pass may fail
  to read or to write; a plan, over which all theorems quantify, says which do.
- **What one pass does** is said exactly, entry by entry and field by field, of the store and the plan it starts
  from and without naming the specification functions of its stages: `VswitchOutcomes` (both vswitch loops),
  `ControlPlaneOutcomes` and `MachinePoolOutcomes` (creation, status, write-back and deletion).
- **The webhooks** (`ControlPlaneWebhook`, `MachinePoolWebhook`, `ClusterNames`) are loops that collect errors,
  proved to collect exactly the broken rules.
- **Runs** (`Runs`) are arbitrary sequences of twenty kinds of events: user creations, accepted updates and
  deletions, passes of the four reconcilers with any faults, reports of the cloud provider, deletions from
  outside, and the clock. `Invariant`, `Preservation`, `ControlPlaneStages`, `MachinePoolStages` prove one inductive
  invariant. The consequences are in `RunTheorems` (ownership, finalizers, the collector), `ControlPlaneRuns` and
  `MachinePoolResults` (what passes achieve over runs), `Teardown`, `MachinePoolRuns`, `DeletionMeasure` and `DeletionProgress`
  (deletion of either owner), `VpcLeaks` and `CreateDeleteLoop`; `VpcLeakRun` is a run with a leak.

## Assumptions

- Users leave the back-filled fields alone: `resourceID` and `uid` are empty on creation; an update of a control plane
  keeps them and the endpoint, an update of a pool clears them or carries them along with the entry's name. Nothing is
  assumed of the endpoint a control plane is created with.
- Cluster and pool names are distinct across namespaces. `ManagedKubernetes` and `KubernetesNodePool` are
  cluster-scoped and looked up by name with no owner check, so control planes are keyed by their cluster's name.
- A pass and its deferred write-back are one step. The write-back may fail at either call, and its error is
  dropped, as in the source.
- A cluster the provider reports ready has an id, and an endpoint that decodes has a host. Nothing else is
  assumed of the provider; where the VPC id it reports matters, theorems say so (`ReportsRecordedVpc`).
- The API server gives out uids once. Outsiders may create vswitches without owners and delete any child.
- `net.ParseCIDR` is an arbitrary predicate and blake2b an arbitrary function into byte strings of the
  requested length. The kind in an owner reference is always the owner's own.

## What turned out not to hold

Each is proved, with the exact condition under which the promise does hold.

- **Admitted but stuck pools.** Pool creation accepts an empty zone, and entries of one name with different
  networks; the update check rejects both. Every write of the controller to such a pool is refused, the one that
  adds the finalizer included (`ControllerEditAdmitted`, `CreatedButStuck`, `InconsistentPoolIsStuck`,
  `InconsistentPoolIsFrozen`, `FinalizerNeedsConsistency`).
- **Undeletable pools.** The finalizer of a deleting pool is given up through the same update check. With the node pool
  gone, an error-free pass releases it if and only if the spec is consistent; otherwise the pool stays for ever, until
  a user updates it (`PoolReleasedExactly`, `StuckUntilUpdated`). It is the only way the deletion of a pool can get
  stuck (`OnlyStuckPoolsRemain`), and an accepted update followed by a deletion gets a pool there (`PoolCanGetStuck`).
- **Create-and-delete loop.** The update check compares new entries with old ones only, so an accepted update can make a
  pool that already has its finalizer inconsistent (`SplitIsAccepted`, `LoopCanStart`). Then, as whenever the write-back
  fails, the vswitches a pass creates are not recorded, the collector deletes them at its next pass
  (`NewVswitchSurvives`), and the pool's next pass creates them again, any number of times (`LoopsForever`).
- **Ready without endpoint.** The status is written before the spec; when the second write fails or is refused, Ready
  is stored and the endpoint is not (`ReadyWithoutEndpoint`, `ReadyCanLackEndpoint`).
- **Refused write-back.** A pass overwrites the recorded VPC id with the reported one; if they differ the
  immutability check refuses the whole write (`WriteBackExact`). A half-filled entry (id without uid) has the same
  effect (`WriteBackAlwaysAdmitted`, `VpcWriteBackAlwaysAdmitted`).
- **Leaked VPCs.** Removal skips a VPC whose id was never recorded (`RemovalLeaksUnrecorded`). A finished teardown leaves
  at most the one VPC its spec names, and does so exactly when that was live and unrecorded at the moment the finalizer
  went (`OnlyVpcsCanLeak`, `AtMostOneVpc`, `ReleaseLeaksExactly`, `LeaksExactly`). Four events with nothing failing are
  enough (`VpcCanLeak`).
- **Generated names collide.** Every hashed cluster name is also the unhashed name of a legal namespace and
  name (`NamesCollide`, `EveryHashedNameCollides`).

## Model

| member | source | states |
|---|---|---|
| CommonApi.CompareVSwitches | api/common/vswitch.go:50-62 | true exactly when the lists have one length and every position is unchanged up to a first back-fill |
| CommonApi.GetIdList | api/common/vswitch.go:65-83 | stops at the first incomplete entry; no error exactly when all are complete, then one non-empty id per entry, in order |
| CommonApi.VpcWrittenOnce | api/common/vpc.go:33-37 | over any chain of accepted updates a VPC's id, name and CIDR never change and its ResourceID is empty up to one point and one constant afterwards |
| CommonApi.VSwitchesWrittenOnce | api/common/vswitch.go:44-62 | the same for each position of the vswitch list, whose length and order are frozen |
| CommonApi.VpcChainEqual | api/common/vpc.go:33-37 | the immutability test composes: any later version passes it against any earlier one |
| CommonApi.VSwitchesChainEqual | api/common/vswitch.go:50-62 | the same for vswitch lists |
| ClusterNames.ValidateClusterName | api/controlplane/v1beta2/related_types.go:39-57 | reports exactly the broken rules; none exactly for valid names |
| ClusterNames.Base36Truncate | api/controlplane/v1beta2/related_types.go:107-115 | one base-36 digit per byte, in order |
| ClusterNames.GeneratedNameIsValid | api/controlplane/v1beta2/related_types.go:66-83 | every name generated for a DNS label and a DNS subdomain (section 2.1 of RFC 1123) passes the validator |
| ClusterNames.DecodesFullName | api/controlplane/v1beta2/related_types.go:67-73 | an unhashed name decodes back to its namespace and resource name |
| ClusterNames.NamesCollide | api/controlplane/v1beta2/related_types.go:66-83 | exactly when two namespaced names get the same cluster name |
| ClusterNames.EveryHashedNameCollides | api/controlplane/v1beta2/related_types.go:75-82 | every hashed name is also generated for another legal pair |
| ControlPlaneWebhook.ValidateCreate | api/controlplane/v1beta2/aliyunmanagedcontrolplane_webhook.go:115-250 | reports exactly the broken naming, region, vswitch and VPC-mode rules |
| ControlPlaneWebhook.ValidateUpdate | api/controlplane/v1beta2/aliyunmanagedcontrolplane_webhook.go:253-303 | admits exactly a valid name, the same region and a first back-fill of VPC and vswitches |
| ControlPlaneWebhook.DefaultedNameIsAdmitted | api/controlplane/v1beta2/aliyunmanagedcontrolplane_webhook.go:67-77 | a defaulted cluster name is never what makes admission fail |
| ControlPlaneWebhook.DefaultKeepsTheRest | api/controlplane/v1beta2/aliyunmanagedcontrolplane_webhook.go:67-77 | a name the user gave is kept, so is every other field, and defaulting is idempotent |
| ControlPlaneWebhook.DefaultedNameDecodes | api/controlplane/v1beta2/related_types.go:66-73 | the name defaulted for a pair that fits decodes back to namespace and name |
| ControlPlaneWebhook.LongNameIsHashed | api/controlplane/v1beta2/related_types.go:75-82 | for a longer pair it is the prefix and one base-36 digit per byte of the hash |
| ControlPlaneWebhook.NetworkModeForever | api/controlplane/v1beta2/aliyunmanagedcontrolplane_webhook.go:194-237 | the VPC/vswitch mode checked on creation holds in every later accepted version |
| MachinePoolWebhook.ValidatePoolCreate | api/infrastructure/v1beta2/aliyunmanagedmachinepool_webhook.go:123-221 | reports exactly the broken vswitch and credential rules |
| MachinePoolWebhook.ValidatePoolUpdate | api/infrastructure/v1beta2/aliyunmanagedmachinepool_webhook.go:249-369 | reports exactly the broken security-group, vswitch, same-name and credential rules |
| MachinePoolWebhook.SecurityGroupsFrozen | api/infrastructure/v1beta2/aliyunmanagedmachinepool_webhook.go:250-261 | once non-empty, the set of security groups never changes along accepted updates |
| MachinePoolWebhook.IdentityAlongChain | api/infrastructure/v1beta2/aliyunmanagedmachinepool_webhook.go:315-356 | while a name stays listed, every entry of that name keeps the CIDR and zone of the first version |
| MachinePoolWebhook.CredentialAlongChain | api/infrastructure/v1beta2/aliyunmanagedmachinepool_webhook.go:358-369 | every accepted version has exactly one of key name and password |
| MachinePoolWebhook.ControllerEditAdmitted | api/infrastructure/v1beta2/aliyunmanagedmachinepool_webhook.go:326-348 | any write of the controller to an admitted pool is accepted if and only if its spec is consistent |
| MachinePoolWebhook.CreatedButStuck | api/infrastructure/v1beta2/aliyunmanagedmachinepool_webhook.go:139-160 | a concrete pool without a zone is created and then no controller edit is ever accepted |
| VswitchReconcile.ReconcileVSwitch | internal/common/vswitch.go:45-161 | store, entries, ids and error after the loop are those of the specified pass |
| VswitchReconcile.ReconcileRemoveVSwitch | internal/common/vswitch.go:163-210 | store and error list after the delete loop are those of the specified pass |
| VswitchFacts.PassContract | internal/common/vswitch.go:45-161 | no error exactly when every entry ends complete, then one non-empty id per entry; on every exit user fields and complete entries are untouched, only own vswitches are added, each with its entry's zone and CIDR and with its uid recorded |
| VswitchFacts.WriteBackAlwaysAdmitted | internal/common/vswitch.go:58-160 | the list left by a pass passes the immutability test against the one before, in every store and with any faults, if and only if no entry is half filled |
| VswitchFacts.PassNeverRegresses | internal/common/vswitch.go:58-160 | no pass, faulty or not, raises the number of missing objects or of incomplete entries |
| VswitchFacts.CleanPassProgresses | internal/common/vswitch.go:58-160 | a fault-free pass creates all missing objects, and lowers the incomplete entries whenever the provider has assigned an awaited id |
| VswitchFacts.SettledPass | internal/common/vswitch.go:52-55 | with all entries complete a pass changes nothing and returns the recorded ids, in any store and with any faults |
| VswitchFacts.Converges | internal/common/vswitch.go:52-160 | two clean passes with the provider's ids between them succeed, and every later pass returns the same ids for ever |
| VswitchFacts.RemoveContract | internal/common/vswitch.go:163-210 | only listed, self-created vswitches are deleted; no errors but time-outs means every one is absent or deleting, which is what a fault-free pass achieves |
| VswitchOutcomes.PassStops | internal/common/vswitch.go:72-91 | the loop stops at the first entry whose lookup fails or whose name has another first owner, or none, with that error; the entries before it are done and nothing from it on is touched |
| VswitchOutcomes.ForeignNameStops | internal/common/vswitch.go:85-91 | a foreign-owned name ends the pass with its own error, leaves the list from there on, and every new vswitch has the name of an earlier entry |
| VswitchOutcomes.FailedReadStops | internal/common/vswitch.go:72-75 | the same for a failed lookup |
| VswitchOutcomes.PassFinishes | internal/common/vswitch.go:95-160 | a pass that nothing stops does every entry: filled from its stored vswitch, given the uid of the one created for it, or untouched; the created objects, the error list and the ids, exactly |
| VswitchOutcomes.PassSucceedsExactly | internal/common/vswitch.go:52-160 | success if and only if every entry of the list found is complete, or its own stored vswitch has an id, or it has an id and only its object is created |
| VswitchOutcomes.RemovalExactly | internal/common/vswitch.go:170-209 | exactly the live, listed, self-created vswitches whose calls work are deleted; the error list in order |
| VswitchOutcomes.TimeoutExactly | internal/common/vswitch.go:190-198 | a time-out is reported if and only if a listed vswitch was marked deleted more than the timeout ago |
| VpcReconcile.ReconcileVPC | internal/common/vpc.go:41-155 | store, block, id and error are those of the specified pass |
| VpcReconcile.VpcContract | internal/common/vpc.go:48-152 | no error exactly when nothing was created and the block is complete or empty; an empty id only for an empty block; a filled block holds the owned object's uid |
| VpcReconcile.VpcWriteBackAlwaysAdmitted | internal/common/vpc.go:92-99 | the block left by a pass passes the immutability test in every store if and only if it was not half filled |
| VpcReconcile.ReconcileRemoveVPC | internal/common/vpc.go:158-194 | store and error are those of the specified removal |
| VpcReconcile.RemovalLeaksUnrecorded | internal/common/vpc.go:163-165 | a fault-free removal leaves the VPC absent or deleting exactly when its id was recorded or it already was |
| VpcReconcile.VpcWaits | internal/common/vpc.go:71-118 | a failed lookup, a foreign name and a missing id change nothing, each with its own error |
| VpcReconcile.VpcAdopted | internal/common/vpc.go:94-98 | an own VPC with an id is recorded with that id and its uid |
| VpcReconcile.VpcCreatedAsAsked | internal/common/vpc.go:119-152 | a free name is created with the CIDR asked for, the owner and a fresh uid, which is recorded |
| VpcReconcile.VpcRemovalExactly | internal/common/vpc.go:163-193 | the time-out exactly past the deadline, the deletion exactly of a recorded live VPC, failed calls reported |
| WriteBack.TwoPhaseRefinesAtomic | internal/controller/controlplane/aliyunmanagedcontrolplane_controller.go:101-114 | the two calls store exactly the pass's status, spec and finalizers if both succeed, the old spec and finalizers if the second fails, nothing if the first does; and when that equals one atomic write |
| ControlPlaneRuns.StatusReady | internal/controller/controlplane/aliyunmanagedcontrolplane_controller.go:346-449 | setStatus ends Ready if and only if the caller sees a cluster reported ready with a decodable endpoint, and then the reported id, endpoint and VPC are recorded and both flags cleared |
| ControlPlaneResults.NetworkIds | internal/controller/controlplane/aliyunmanagedcontrolplane_controller.go:159-208 | the network stage touches no user field and, when it succeeds, hands on one real id per entry, in order |
| ControlPlaneController.ControlPlaneReconciler.Reconcile | internal/controller/controlplane/aliyunmanagedcontrolplane_controller.go:70-239 | one pass, with its deferred write, changes the store as specified |
| ControlPlaneController.ControlPlaneReconciler.DeferredWrite | internal/controller/controlplane/aliyunmanagedcontrolplane_controller.go:101-114 | the stored object afterwards is that of the specified two-phase write |
| ControlPlaneController.ControlPlaneReconciler.ReconcileNormal | internal/controller/controlplane/aliyunmanagedcontrolplane_controller.go:121-157 | finalizer first, then network and cluster |
| ControlPlaneController.ControlPlaneReconciler.ReconcileNetworkAndCluster | internal/controller/controlplane/aliyunmanagedcontrolplane_controller.go:159-239 | VPC, vswitches, cluster, status and kubeconfig in this order, each only after the one before succeeded |
| ControlPlaneController.ControlPlaneReconciler.ReconcileManagedKubernetes | internal/controller/controlplane/aliyunmanagedcontrolplane_controller.go:241-343 | creates or updates the cluster object, sets Creating or Updating, and shows the caller nothing of a cluster it has just created |
| ControlPlaneController.ControlPlaneReconciler.SetStatus | internal/controller/controlplane/aliyunmanagedcontrolplane_controller.go:346-449 | Ready, the two flags, cluster id, endpoint and VPC id after the observed status |
| ControlPlaneController.ControlPlaneReconciler.ReconcileKubeconfig | internal/controller/controlplane/aliyunmanagedcontrolplane_controller_kubeconfig.go:40-81 | Initialized is set exactly when the secret was stored |
| ControlPlaneController.ControlPlaneReconciler.ReconcileDelete | internal/controller/controlplane/aliyunmanagedcontrolplane_controller.go:451-512 | the specified deletion step |
| MachinePoolController.MachinePoolReconciler.Reconcile | internal/controller/infrastructure/aliyunmanagedmachinepool_controller.go:85-244 | one pass, with its deferred write, changes the store as specified |
| MachinePoolController.MachinePoolReconciler.DeferredWrite | internal/controller/infrastructure/aliyunmanagedmachinepool_controller.go:124-136 | the stored object afterwards is that of the specified two-phase write |
| MachinePoolController.MachinePoolReconciler.ReconcileNormal | internal/controller/infrastructure/aliyunmanagedmachinepool_controller.go:144-197 | waits for a Ready control plane, stores the finalizer, needs the cluster object |
| MachinePoolController.MachinePoolReconciler.ReconcileChildren | internal/controller/infrastructure/aliyunmanagedmachinepool_controller.go:199-244 | vswitches, node pool, status in this order |
| MachinePoolController.MachinePoolReconciler.ReconcileKubernetesNodePool | internal/controller/infrastructure/aliyunmanagedmachinepool_controller.go:246-385 | creates or updates the node pool object after its credential |
| MachinePoolController.MachinePoolReconciler.EnsurePasswordAndKeyName | internal/controller/infrastructure/aliyunmanagedmachinepool_controller_utils.go:99-173 | key name, or else a stored password and a reference to it |
| MachinePoolController.MachinePoolReconciler.SetStatus | internal/controller/infrastructure/aliyunmanagedmachinepool_controller.go:418-489 | Ready as observed; security groups filled only when there are none |
| MachinePoolController.MachinePoolReconciler.ReconcileDelete | internal/controller/infrastructure/aliyunmanagedmachinepool_controller.go:524-576 | the specified deletion step |
| Collectors.VswitchReconciler.Reconcile | internal/controller/cs/vswitch/vswitch_controller.go:49-164 | one collector pass changes the store as specified |
| Collectors.CollectsExactlyGarbage | internal/controller/cs/vswitch/vswitch_controller.go:71-163 | an error-free pass deletes a live vswitch if and only if it belongs to a pool and is unreferenced by pool and node pool, and touches no other |
| Collectors.OrphansAreCollected | internal/controller/cs/vswitch/vswitch_controller.go:96-103 | a vswitch of a vanished pool is absent or deleting after its next error-free pass |
| Collectors.FailedListsDeleteNothing | internal/controller/cs/vswitch/vswitch_controller.go:85-129 | a failed list call ends the pass before any deletion |
| Collectors.ForceCleanExactly | internal/controller/cs/vswitch/vswitch_controller.go:57-69 | within the timeout a deleting vswitch is left alone; past it exactly one finalizer is removed, and nothing else |
| Collectors.VpcReconciler.Reconcile | internal/controller/cs/vpc/vpc_controller.go:47-71 | the force-clean of a timed-out VPC, and nothing else |
| Collectors.ForceCleanVpcExactly | internal/controller/cs/vpc/vpc_controller.go:57-70 | the same for a VPC; a live one is never touched |
| RunTheorems.Reachable | internal/controller/controlplane/aliyunmanagedcontrolplane_controller.go:70-512 | the invariant holds in every state of every run |
| RunTheorems.RecordedVswitchIsOwned | internal/common/vswitch.go:72-101 | a vswitch uid recorded by an owner belongs to a vswitch whose first owner it is, in every run |
| RunTheorems.NoSharedVswitch | internal/common/vswitch.go:72-101 | two owners never record the same vswitch |
| RunTheorems.RecordedVpcIsOwned | internal/common/vpc.go:71-97 | a recorded VPC uid is that of the VPC of that name, owned by the recorder |
| RunTheorems.NoSharedVpc | internal/common/vpc.go:71-97 | two control planes never record the same VPC |
| RunTheorems.LiveVswitchIsHeld | internal/controller/controlplane/aliyunmanagedcontrolplane_controller.go:137-141 | a control plane that owns a live vswitch is stored, carries its finalizer and lists it |
| RunTheorems.ClusterIsHeld | internal/controller/controlplane/aliyunmanagedcontrolplane_controller.go:137-141 | the owner of a cluster or node pool object is stored with its finalizer |
| RunTheorems.NoEmptyVpcId | internal/common/vpc.go:48-60 | no vswitch of a control plane was ever created with an empty VPC id |
| RunTheorems.ReadinessChain | internal/controller/controlplane/aliyunmanagedcontrolplane_controller.go:229-235 | Ready implies a cluster id, Initialized a stored kubeconfig; every node pool has a cluster id, real vswitches and exactly one usable credential |
| RunTheorems.LookupsAreUnique | internal/controller/cs/vswitch/vswitch_controller.go:85-104 | the collector's index lookups find at most one object |
| RunTheorems.CollectorSafety | internal/controller/cs/vswitch/vswitch_controller.go:71-163 | the collector never deletes a control plane's vswitch, a listed one, or one its pool's node pool is observed to use |
| ControlPlaneResults.OwnWriteBackAdmitted | internal/controller/controlplane/aliyunmanagedcontrolplane_controller.go:159-239 | in every run and with any faults, the spec a pass wants to write back passes the update webhook, provided the recorded VPC is reported |
| ControlPlaneResults.WriteBackExact | internal/controller/controlplane/aliyunmanagedcontrolplane_controller.go:442-444 | with a complete network and a stored cluster that proviso is exact |
| ControlPlaneResults.CreatingPassNotReady | internal/controller/controlplane/aliyunmanagedcontrolplane_controller.go:265-317 | the pass that creates the cluster ends Creating and not Ready, and has given it its owner, name and one real id per entry, in order |
| ControlPlaneRuns.ReadyExactly | internal/controller/controlplane/aliyunmanagedcontrolplane_controller.go:352-427 | with a complete network a pass ends Ready if and only if the cluster existed and is reported ready with a decodable endpoint |
| ControlPlaneRuns.ReadyPassIsNormal | internal/controller/controlplane/aliyunmanagedcontrolplane_controller.go:406-444 | a pass that turns its object Ready records exactly the reported cluster id, endpoint and VPC, and clears both flags |
| ControlPlaneRuns.CreatingExcludesUpdating | internal/controller/controlplane/aliyunmanagedcontrolplane_controller.go:316-338 | in every run without outside removal of a cluster, never Creating and Updating at once |
| ControlPlaneRuns.ReadyComesWithEndpoint | internal/controller/controlplane/aliyunmanagedcontrolplane_controller.go:427-441 | in every run whose passes get their second write through, Ready implies a recorded endpoint |
| ControlPlaneRuns.ReadyWithoutEndpoint | internal/controller/controlplane/aliyunmanagedcontrolplane_controller.go:101-114 | exactly when a pass stores Ready without the endpoint |
| ControlPlaneRuns.ReadyCanLackEndpoint | internal/controller/controlplane/aliyunmanagedcontrolplane_controller.go:101-114 | a concrete store and pass for which it happens |
| ControlPlaneOutcomes.FinalizerStoredExactly | internal/controller/controlplane/aliyunmanagedcontrolplane_controller.go:121-141 | the finalizer is stored if and only if it was held, or the infrastructure is ready and the write works |
| ControlPlaneOutcomes.HeldUpPassIsIdle | internal/controller/controlplane/aliyunmanagedcontrolplane_controller.go:121-157 | a pass that waits for the infrastructure, its finalizer or the provider config changes at most the finalizer |
| ControlPlaneOutcomes.VswitchesInOwnVpc | internal/controller/controlplane/aliyunmanagedcontrolplane_controller.go:159-193 | every vswitch a pass creates lies in the VPC given by id, or else in the recorded one |
| ControlPlaneOutcomes.VpcComesFirst | internal/controller/controlplane/aliyunmanagedcontrolplane_controller.go:159-182 | as long as the VPC is not at hand no vswitch is looked at, and the VPC is created as asked, or left |
| ControlPlaneOutcomes.VswitchesDoneTo | internal/controller/controlplane/aliyunmanagedcontrolplane_controller.go:184-208 | with the VPC at hand the vswitches are done, in that VPC, up to the first lookup that fails or name that is taken |
| ControlPlaneOutcomes.NetworkDone | internal/controller/controlplane/aliyunmanagedcontrolplane_controller.go:159-208 | the network stage succeeds if and only if the VPC and every vswitch are at hand; it then fills the missing fields from the stored objects and touches none of these |
| ControlPlaneOutcomes.ClusterStage | internal/controller/controlplane/aliyunmanagedcontrolplane_controller.go:241-343 | nothing if a call fails; else the cluster is created as asked, or only renamed, and status, spec and kubeconfig follow the report, field by field |
| ControlPlaneOutcomes.FullPassExactly | internal/controller/controlplane/aliyunmanagedcontrolplane_controller.go:121-239 | the whole pass, said of the store found: with everything at hand the exact store and object, otherwise cluster, status, endpoint and kubeconfig untouched |
| ControlPlaneOutcomes.ReadyAfterPass | internal/controller/controlplane/aliyunmanagedcontrolplane_controller.go:352-427 | a pass ends Ready if and only if it gets to the status and the cluster is up, or does not get there and was Ready |
| ControlPlaneOutcomes.PassIsStored | internal/controller/controlplane/aliyunmanagedcontrolplane_controller.go:101-114 | what of the pass is stored under each outcome of the two writes; no other control plane is touched |
| MachinePoolResults.NodePoolWritten | internal/controller/infrastructure/aliyunmanagedmachinepool_controller.go:333-376 | when a node pool write succeeds, and that it then holds the given vswitches and exactly the current credential, whatever it held before |
| MachinePoolResults.NodePoolCreation | internal/controller/infrastructure/aliyunmanagedmachinepool_controller.go:270-299 | in every run a node pool is created for a Ready control plane, with its region and cluster id, one real id per entry and the current credential |
| MachinePoolResults.InconsistentPoolIsStuck | internal/controller/infrastructure/aliyunmanagedmachinepool_controller.go:179-183 | no pass over an inconsistent pool without finalizer changes more than its status |
| MachinePoolResults.FinalizerNeedsConsistency | internal/controller/infrastructure/aliyunmanagedmachinepool_controller.go:179-183 | the finalizer is stored if and only if the spec is consistent |
| MachinePoolResults.NewVswitchSurvives | internal/controller/infrastructure/aliyunmanagedmachinepool_controller.go:124-136 | in every run a vswitch just created by a pool pass survives the next error-free collection if and only if the write-back went through |
| MachinePoolOutcomes.PoolFinalizerStoredExactly | internal/controller/infrastructure/aliyunmanagedmachinepool_controller.go:144-183 | the finalizer is stored if and only if it was held, or the control plane serves, the spec is consistent and the write works |
| MachinePoolOutcomes.HeldUpPoolPassIsIdle | internal/controller/infrastructure/aliyunmanagedmachinepool_controller.go:144-197 | a pass held up before its vswitches changes at most the finalizer; one without a serving control plane, nothing |
| MachinePoolOutcomes.VswitchesInClusterVpc | internal/controller/infrastructure/aliyunmanagedmachinepool_controller.go:199-206 | every vswitch a pool pass creates lies in the VPC reported for its cluster |
| MachinePoolOutcomes.PoolVswitchesDoneTo | internal/controller/infrastructure/aliyunmanagedmachinepool_controller.go:199-219 | the vswitches are done, in that VPC, up to the first lookup that fails or name that is taken |
| MachinePoolOutcomes.KeyComesFirst | internal/controller/infrastructure/aliyunmanagedmachinepool_controller_utils.go:104-120 | a key replaces a password reference and needs no secret; without either the credential stays |
| MachinePoolOutcomes.NodePoolStage | internal/controller/infrastructure/aliyunmanagedmachinepool_controller.go:247-384 | the node pool is created as asked, or only its ids and credential change; the password is stored under the pool's name only; flags, region, cluster id and security groups follow |
| MachinePoolOutcomes.FullPoolPassExactly | internal/controller/infrastructure/aliyunmanagedmachinepool_controller.go:144-244 | the whole pass, said of the store found: with all vswitches at hand the exact node pool, password and object, otherwise all of these untouched |
| MachinePoolOutcomes.PoolReadyAfterPass | internal/controller/infrastructure/aliyunmanagedmachinepool_controller.go:467-485 | a pass ends Ready if and only if it gets to the status and the node pool is stored and ready, or does not get there and was Ready |
| MachinePoolOutcomes.PoolTurnsReady | internal/controller/infrastructure/aliyunmanagedmachinepool_controller.go:467-489 | the exact condition for turning Ready; empty security groups then become the observed ones, others are kept |
| MachinePoolOutcomes.PoolPassIsStored | internal/controller/infrastructure/aliyunmanagedmachinepool_controller.go:124-136 | what of the pass is stored under each outcome of the two writes; no other pool is touched |
| Teardown.DeletionOrder | internal/controller/controlplane/aliyunmanagedcontrolplane_controller.go:451-512 | a deleting pass creates nothing, touches no vswitch or VPC while the cluster is stored, and gives up the finalizer only when the cluster is gone and the rest is gone or going |
| Teardown.FinalizerGoesLast | internal/controller/controlplane/aliyunmanagedcontrolplane_controller.go:507-508 | in every run whatever removes the finalizer is the owner's own pass, with all children gone or going |
| ControlPlaneOutcomes.ClusterGoesFirst | internal/controller/controlplane/aliyunmanagedcontrolplane_controller.go:464-481 | a stored cluster is asked to go once, and nothing else happens |
| ControlPlaneOutcomes.TeardownExactly | internal/controller/controlplane/aliyunmanagedcontrolplane_controller.go:484-508 | without a cluster: exactly which vswitches and VPC go, and exactly when the finalizer does |
| ControlPlaneOutcomes.ReleasedExactly | internal/controller/controlplane/aliyunmanagedcontrolplane_controller.go:451-512 | whatever fails, the finalizer leaves the store if and only if the cluster is gone, every call works and both writes go through |
| WriteBack.RestoreIsNeeded | internal/controller/controlplane/aliyunmanagedcontrolplane_controller.go:107-108 | without the restored spec or without the new version the second call would store the old spec or fail |
| Teardown.PoolDeletionOrder | internal/controller/infrastructure/aliyunmanagedmachinepool_controller.go:524-576 | the same order for a pool: nothing created, no vswitch touched while the node pool is stored, finalizer last |
| MachinePoolRuns.PoolFinalizerGoesLast | internal/controller/infrastructure/aliyunmanagedmachinepool_controller.go:555-573 | in every run only a deleting pool's own pass removes its finalizer, with node pool gone and listed vswitches gone or going |
| MachinePoolRuns.PoolReleasedExactly | internal/controller/infrastructure/aliyunmanagedmachinepool_controller.go:572-575 | without node pool an error-free pass releases the finalizer if and only if the spec is consistent |
| MachinePoolOutcomes.NodePoolGoesFirst | internal/controller/infrastructure/aliyunmanagedmachinepool_controller.go:536-553 | a stored node pool is asked to go once, and nothing else happens |
| MachinePoolOutcomes.PoolTeardownExactly | internal/controller/infrastructure/aliyunmanagedmachinepool_controller.go:558-572 | without a node pool: exactly which vswitches go, and exactly when the finalizer does |
| MachinePoolOutcomes.PoolReleasedWhen | internal/controller/infrastructure/aliyunmanagedmachinepool_controller.go:524-576 | whatever fails, the finalizer leaves the store if and only if the node pool is gone, every call works, both writes go through and the spec is consistent |
| MachinePoolRuns.InconsistentPoolIsFrozen | api/infrastructure/v1beta2/aliyunmanagedmachinepool_webhook.go:326-348 | of an inconsistent pool, with finalizer or not, deleting or not, no pass changes more than the status |
| MachinePoolRuns.StuckUntilUpdated | internal/controller/infrastructure/aliyunmanagedmachinepool_controller.go:124-136 | in every continuation of every run an inconsistent deleting pool keeps its finalizer until a user updates it |
| CreateDeleteLoop.PoolCanGetStuck | api/infrastructure/v1beta2/aliyunmanagedmachinepool_webhook.go:336-348 | a concrete store, accepted update and deletion that lead there |
| CreateDeleteLoop.SplitIsAccepted | api/infrastructure/v1beta2/aliyunmanagedmachinepool_webhook.go:336-348 | a concrete accepted update from a consistent to an inconsistent spec |
| CreateDeleteLoop.LoopCreates | internal/controller/infrastructure/aliyunmanagedmachinepool_controller.go:199-206 | a pass of an inconsistent pool creates a wanted vswitch that is missing, and leaves it unrecorded, that is garbage |
| CreateDeleteLoop.LoopsForever | internal/controller/cs/vswitch/vswitch_controller.go:159-162 | after any number of rounds the pool's pass creates the vswitch again and the collector deletes it again |
| CreateDeleteLoop.LoopCanStart | api/infrastructure/v1beta2/aliyunmanagedmachinepool_webhook.go:336-348 | a concrete store and accepted update after which the loop begins |
| DeletionMeasure.EveryStepIsQuiet | internal/controller/controlplane/aliyunmanagedcontrolplane_controller.go:116-119 | once an owner, control plane or pool, is being deleted, no event of any kind adds to what it has to take down |
| DeletionMeasure.RemainingLowered | internal/controller/controlplane/aliyunmanagedcontrolplane_controller.go:459-512 | the measure (2 per live child, 1 per deleting child, 1 for the finalizer) then never grows, and falls exactly when something left |
| History.StepExtends | internal/common/vswitch.go:124-153 | no event rewrites the history of uids |
| DeletionProgress.ProgressUnlessWaiting | internal/controller/controlplane/aliyunmanagedcontrolplane_controller.go:459-512 | an error-free pass of a dying owner lowers the measure if and only if it does not wait for the cluster |
| DeletionProgress.PoolProgressExactly | internal/controller/infrastructure/aliyunmanagedmachinepool_controller.go:524-576 | an error-free pass of a dying pool lowers the measure if and only if it does not wait, and takes down the node pool or a listed vswitch or has a consistent spec |
| DeletionProgress.ProductiveLowers | internal/controller/cs/vswitch/vswitch_controller.go:57-69 | so does the provider finishing a deletion and the force-clean of a timed-out child; no event raises it |
| DeletionProgress.DeletionTerminates | internal/controller/controlplane/aliyunmanagedcontrolplane_controller.go:451-512 | for either kind of owner, in every continuation of every run, the measure plus the productive events so far never exceeds the measure at the start |
| DeletionProgress.ProductivePossible | internal/controller/controlplane/aliyunmanagedcontrolplane_controller.go:451-512 | for a control plane a productive event is possible exactly as long as the finalizer is held or a child is being deleted |
| DeletionProgress.OnlyVpcsCanLeak | internal/common/vpc.go:163-165 | once none is possible, finalizer, cluster and vswitches are all gone and only live VPCs can be left |
| DeletionProgress.PoolProductivePossible | internal/controller/infrastructure/aliyunmanagedmachinepool_controller.go:524-576 | for a pool, exactly as long as a vswitch or node pool of its own is left, or its finalizer is held and its spec consistent |
| DeletionProgress.OnlyStuckPoolsRemain | internal/controller/infrastructure/aliyunmanagedmachinepool_controller.go:572-575 | once none is possible nothing is left of a dying pool but the pool itself, stuck with an inconsistent spec |
| VpcLeaks.AtMostOneVpc | internal/common/vpc.go:120-149 | in every run no owner has two VPCs |
| VpcLeaks.ReleaseLeaksExactly | internal/common/vpc.go:163-165 | when the finalizer goes, a live own VPC stays behind if and only if there was one and its id was not recorded |
| VpcLeaks.LeaksExactly | internal/common/vpc.go:158-194 | in every continuation in which nobody else removes it, exactly one VPC is left in that case and none otherwise |
| VpcLeakRun.VpcCanLeak | internal/common/vpc.go:163-165 | a run of four events, none failing, that ends with the owner gone and its VPC live |

## Left out

- Descriptions, tags, addons, versions, disks, instance types, images, replicas and logging fields: copied from spec
  to spec; each is settled by reading one assignment.
- Control plane fields that are merely compared for equality on update (cluster spec, domain, time zone, resource
  group, NAT gateway, security group, CNI, encryption, proxy mode), the pool name check and AdditionalTags.Validate.
- The addon loop of Default, which sets a flag on a loop copy, and the other defaulted constants.
- AliyunManagedCluster, ProviderConfig, the SDK client, DescribeScalingInstances and ProviderIDList: the first
  three appear as calls of a pass that may fail, the rest not at all.
- Contents of kubeconfig secrets and certificates: only whether the secret was stored.
- Conditions other than Ready, Creating and Updating, failure messages and logs.
- Optional fields the source dereferences without a test (VPCID, ID and Version of a cluster's observed status, the
  size of a data disk): taken to be present.
- Faults are chosen per object and pass, not per call: a pass that may read an object but not write it is covered,
  one whose first write of an object succeeds and second fails only where the source makes two writes.
- An update that changes nothing bumps the resource version in the model; the real server leaves it.
- ControlPlaneWebhook.ValidateCreate: covers name, region, vswitch and VPC rules; cluster spec, proxy mode and tags are not
  modelled, because each is one comparison that no other part depends on.
- ControlPlaneWebhook.ValidateUpdate: covers name, region, VPC and vswitches; the other immutable fields are not modelled,
  because nothing in the lifecycle writes them.
- MachinePoolWebhook.ValidatePoolCreate: covers vswitches and credentials; pool name, instance types and disks are not
  modelled, because each is one comparison.
- MachinePoolWebhook.ValidatePoolUpdate: covers security groups, vswitches and credentials; image type and disks are not
  modelled, for the same reason.
- ControlPlaneController.ControlPlaneReconciler.Reconcile: does not state the returned result, requeue delays and the
  conditions other than Ready, Creating and Updating.
- ControlPlaneController.ControlPlaneReconciler.ReconcileNormal: the provider config step is one outcome of the plan.
- ControlPlaneController.ControlPlaneReconciler.ReconcileManagedKubernetes: of the object's fields only name, owner and
  vswitch ids are modelled; the others are copied from the spec.
- ControlPlaneController.ControlPlaneReconciler.SetStatus: version, network status, addons and failure messages are not
  modelled.
- ControlPlaneController.ControlPlaneReconciler.ReconcileKubeconfig: decoding of the certificate and the secret's contents
  are folded into the outcome of the calls.
- MachinePoolController.MachinePoolReconciler.Reconcile: does not state the returned result and the other conditions.
- MachinePoolController.MachinePoolReconciler.ReconcileNormal: the SDK client's set-up is one outcome of the plan.
- MachinePoolController.MachinePoolReconciler.ReconcileKubernetesNodePool: scaling, disk, runtime and label fields are not
  modelled.
- MachinePoolController.MachinePoolReconciler.SetStatus: node pool id, replicas and the provider id list are not modelled.
- CreateDeleteLoop.LoopsForever: is about rounds in which only the two controllers act; the provider and users may
  delay or end the loop.
- VswitchReconcile.ReconcileRemoveVSwitch: deletes by name whoever owns the vswitch, as the source does; no ownership is
  claimed for it, and no error from it means absent or marked deleting, not gone.
- DeletionProgress.DeletionTerminates: bounds the productive events; that they do happen is up to the provider and
  the clock, and is not assumed.
- RunTheorems.CollectorSafety: is about recorded uids; a vswitch whose record was lost with a failed write-back is the
  subject of NewVswitchSurvives.
